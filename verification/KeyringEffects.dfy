/** What each operation does, in terms of the state before and after it: the observable
    effect of Lock, Unlock's refusals, account loads, private keys, account and scope
    creation, stated over the steps and runs of the manager.
 */
module KeyringEffects {
  import opened ByteCodec
  import opened Errors
  import opened Primitives
  import opened Snacl
  import opened AccountRow
  import opened AccountTable
  import opened Keyring
  import opened KeyringInvariant
  import opened KeyringLocking
  import opened KeyringAddresses
  import opened KeyringRuns
  import opened ScopeCreation

  // ------------------------------------------------------------------------ lock

  /** Nothing private is left but in addresses outside the caches. */
  ghost predicate Cleared(m: Mgr) {
    && m.locked
    && m.master == Zeros(32) && m.cryptoPriv == Zeros(32) && m.cryptoScript == Zeros(32) && m.hashed == Zeros(64)
    && (forall sc, n :: sc in m.scopes && n in m.scopes[sc].accounts ==> m.scopes[sc].accounts[n].keyPriv == None)
    && (forall sc, id :: sc in m.scopes && id in m.scopes[sc].addrs ==>
          m.scopes[sc].addrs[id] < |m.heap| && m.heap[m.scopes[sc].addrs[id]].privCT == [])
  }

  /** Two managers that differ in clear private material only. */
  ghost predicate SameButSecrets(m: Mgr, w: Mgr) {
    && w == m.(locked := w.locked, master := w.master, cryptoPriv := w.cryptoPriv, hashed := w.hashed,
               scopes := w.scopes, heap := w.heap)
    && w.scopes.Keys == m.scopes.Keys && |w.heap| == |m.heap|
    && (forall sc :: sc in m.scopes ==>
          && w.scopes[sc] == m.scopes[sc].(accounts := w.scopes[sc].accounts)
          && w.scopes[sc].accounts.Keys == m.scopes[sc].accounts.Keys)
    && (forall sc, n :: sc in m.scopes && n in m.scopes[sc].accounts ==>
          w.scopes[sc].accounts[n] == m.scopes[sc].accounts[n].(keyPriv := w.scopes[sc].accounts[n].keyPriv))
    && (forall i :: 0 <= i < |m.heap| ==> w.heap[i] == m.heap[i].(privCT := w.heap[i].privCT))
  }

  /** In every locked state of every run the manager is cleared. */
  lemma LockedIsCleared(c: Crypto, sec: Secrets, ws: seq<World>, ops: seq<Op>, i: nat)
    requires Lawful(c) && IsRun(c, ws, ops) && WorldOK(c, sec, ws[0]) && TrustsAll(c, sec, ops)
    requires i < |ws| && ws[i].m.locked
    ensures Cleared(ws[i].m)
  {
    hide Lawful, IsRun, WorldOK, TrustsAll;
    RunOK(c, sec, ws, ops);
    ClearedWhenLocked(c, sec, ws[i]);
  }

  lemma ClearedWhenLocked(c: Crypto, sec: Secrets, w: World)
    requires WorldOK(c, sec, w) && w.m.locked
    ensures Cleared(w.m)
  {
    hide DbOK, TablesOK, OpenKey, Structured, AccountsOK, HeapOK, TypesOK, Decrypt;
    forall sc, id | sc in w.m.scopes && id in w.m.scopes[sc].addrs ensures w.m.scopes[sc].addrs[id] < |w.m.heap| {
      assert CachedAs(c, w.m, sc, id, w.m.scopes[sc].addrs[id]);
    }
  }

  /** Lock, in every reachable state: afterwards the manager is cleared, and nothing but clear
      private material is gone. */
  lemma LockEffect(c: Crypto, sec: Secrets, ws: seq<World>, ops: seq<Op>, i: nat)
    requires Lawful(c) && IsRun(c, ws, ops) && WorldOK(c, sec, ws[0]) && TrustsAll(c, sec, ops)
    requires i < |ops| && ops[i].DoLock?
    ensures Cleared(ws[i + 1].m) && SameButSecrets(ws[i].m, ws[i + 1].m)
    ensures ws[i + 1] == ws[i].(m := ws[i + 1].m) && (ws[i].m.locked ==> ws[i + 1] == ws[i])
  {
    hide Lawful, WorldOK, TrustsAll, Cleared, SameButSecrets, LockOf, Step;
    RunOK(c, sec, ws, ops);
    assert Step(c, ws[i], ops[i], ws[i + 1]);
    LockIsStep(c, sec, ws[i], ws[i + 1]);
    ClearedWhenLocked(c, sec, ws[i + 1]);
  }

  lemma LockIsStep(c: Crypto, sec: Secrets, w: World, w': World)
    requires WorldOK(c, sec, w) && Step(c, w, DoLock, w')
    ensures w'.m.locked && SameButSecrets(w.m, w'.m) && w' == w.(m := w'.m) && (w.m.locked ==> w' == w)
  {
    hide DbOK, TablesOK, OpenKey, MgrOK, LockOf, SameButSecrets;
    assert !w.m.watchingOnly && w.m.cryptoScript == Zeros(KEY_SIZE) by { NetOf(c, sec, w.m); Blank(c, sec, w.m); }
    LockedKeepsRest(w.m);
    SameRefl(w.m);
    LockFacts(w.m);
  }

  lemma Blank(c: Crypto, sec: Secrets, m: Mgr)
    requires MgrOK(c, sec, m)
    ensures m.cryptoScript == Zeros(KEY_SIZE)
  {
    hide Structured, Mode, AccountsOK, HeapOK, ShapesOK;
  }

  lemma SameRefl(m: Mgr)
    ensures SameButSecrets(m, m)
  {
  }

  lemma LockedKeepsRest(m: Mgr)
    requires m.cryptoScript == Zeros(KEY_SIZE)
    ensures SameButSecrets(m, LockOf(m))
  {
    hide InCache;
  }

  /** Lock's answer: refused exactly on a watching-only or locked manager, which it leaves as
      it is. */
  lemma LockAnswer(m: Mgr)
    ensures Lock(m).1 == if m.watchingOnly then Err(ErrWatchingOnly) else if m.locked then Err(ErrLocked) else Ok(())
    ensures !Lock(m).1.Ok? ==> Lock(m).0 == m
    ensures Lock(m).1.Ok? ==> Lock(m).0.locked
  {
    hide LockedHeap, LockedScopes;
  }

  // ---------------------------------------------------------- refusals, private keys

  /** A watching-only manager refuses everything that needs a private key and does not
      change. */
  lemma WatchingOnlyRefuses(c: Crypto, m: Mgr, pass: Bytes, rand: Prng, post: Mgr, r: Outcome<()>, ref: nat)
    requires m.watchingOnly && Structured(m) && ref < |m.heap| && Unlocks(c, m, pass, rand, post, r)
    ensures post == m && r == Err(ErrWatchingOnly)
    ensures Lock(m) == (m, Err(ErrWatchingOnly)) && PrivKey(c, m, ref) == (m, Err(ErrWatchingOnly))
  {
    hide Structured;
  }

  /** PrivKey: refused while locked; while unlocked it answers with the key of the path and
      keeps that in the object, touching nothing else. */
  lemma PrivKeyEffect(c: Crypto, sec: Secrets, m: Mgr, ref: nat)
    requires MgrOK(c, sec, m) && ref < |m.heap|
    ensures m.locked ==> PrivKey(c, m, ref) == (m, Err(ErrLocked))
    ensures !m.locked ==>
              && AddressKey(c, sec.root, m.heap[ref].scope, m.heap[ref].path).Ok?
              && var d := c.scalar(AddressKey(c, sec.root, m.heap[ref].scope, m.heap[ref].path).value);
              PrivKey(c, m, ref) == (m.(heap := m.heap[ref := m.heap[ref].(privCT := d)]), Ok(d))
  {
    hide Structured, AddressKey, Decrypt, AccountsOK, AccountsOpen, Queued, HeapOK, ShapesOK;
    HeapAt(c, sec, m, ref);
    if !m.locked {
      NotQueuedWhenEmpty(m, ref);
      var a := m.heap[ref];
      if a.privCT != [] {
        assert a.(privCT := a.privCT) == a;
        assert m.heap[ref := a] == m.heap;
      }
    }
  }

  /** Deriving, caching and evicting an address and asking for a private key are steps with
      exactly the effect of the operation, on a scope or address the manager has. */
  lemma AddressSteps(c: Crypto, w: World, op: Op, w': World)
    requires Step(c, w, op, w')
    ensures op.DoDerive? && op.sc in w.m.scopes ==>
              w' == w.(m := DeriveAddress(c, w.m, w.db, op.sc, op.path, op.rand).0)
    ensures op.DoCache? && op.sc in w.m.scopes ==>
              w' == w.(m := CacheAddress(c, w.m, w.db, op.sc, op.path, op.rand).0)
    ensures op.DoEvict? && op.sc in w.m.scopes ==> w' == w.(m := EvictAddress(w.m, op.sc, op.id))
    ensures op.DoPrivKey? && op.ref < |w.m.heap| ==> w' == w.(m := PrivKey(c, w.m, op.ref).0)
    ensures op.DoNextAddresses? && op.sc in w.m.scopes ==>
              && w'.m == NextAddresses(c, w.m, w.db, op.sc, op.account, op.ask, op.rand).0
              && w'.db == NextAddresses(c, w.m, w.db, op.sc, op.account, op.ask, op.rand).1
  {
    hide DeriveAddress, CacheAddress, NextAddresses, PrivKey, EvictAddress, LoadAccount, Unlocks, LockOf, Structured,
      AfterNewAccount, AfterNewScope, Reopened;
  }

  // ---------------------------------------------------------------- account loads

  /** loadAccountInfo's refusals: an account without a row, the keyless imported account, and
      a row whose last address does not derive.  Nothing changes. */
  lemma LoadRefuses(c: Crypto, sec: Secrets, m: Mgr, db: Db, sc: KeyScope, n: uint32, rand: Prng)
    requires Lawful(c) && MgrOK(c, sec, m) && DbOK(c, sec, db) && sc in m.scopes && sc in db
    requires n !in m.scopes[sc].accounts
    ensures n !in db[sc].table.rows ==> LoadAccount(c, m, db, sc, n, rand) == (m, Err(ErrAccountNotFound))
    ensures n in db[sc].table.rows && n == IMPORTED ==> LoadAccount(c, m, db, sc, n, rand) == (m, Err(ErrCrypto))
    ensures !LoadAccount(c, m, db, sc, n, rand).1.Ok? ==> LoadAccount(c, m, db, sc, n, rand).0 == m
  {
    hide Lawful, MgrOK, LoadRowInto, RowOK, OpenKey;
    if n in db[sc].table.rows && n == IMPORTED {
      ImportedUnreadable(c, m, sc, db[sc].table.rows[n], rand);
    }
  }

  lemma LoadStep(c: Crypto, w: World, sc: KeyScope, n: uint32, rand: Prng, w': World)
    requires Step(c, w, DoLoad(sc, n, rand), w') && sc in w.m.scopes
    ensures w' == w.(m := LoadAccount(c, w.m, w.db, sc, n, rand).0)
  {
    hide LoadAccount;
  }

  /** The outcome of a load: the account is cached with the keys of its path exactly when its
      last external address derives and can be built, and otherwise nothing changed. */
  ghost predicate LoadsExactly(c: Crypto, sec: Secrets, w: World, sc: KeyScope, n: uint32, rand: Prng, w': World)
    requires sc in w.m.scopes && sc in w.db && n in w.db[sc].table.rows
  {
    var row := w.db[sc].table.rows[n];
    && w'.db == w.db && AccountKey(c, sec.root, sc, n).Ok? && sc in w'.m.scopes
    && var k := AccountKey(c, sec.root, sc, n).value;
    if DeriveKey(c, if w.m.locked then c.neuter(k) else Some(k), EXTERNAL,
                 if row.nextExternal == 0 then 0 else row.nextExternal - 1).Ok?
       && Buildable(w.m, !w.m.locked, w.m.scopes[sc].schema.external, rand, 0)
    then n in w'.m.scopes[sc].accounts && Loaded(c, sec, sc, n, row, w.m.locked, w'.m.scopes[sc].accounts[n])
    else w' == w
  }

  /** loadAccountInfo over a step of a run, for a stored account that is not cached. */
  lemma LoadEffect(c: Crypto, sec: Secrets, w: World, sc: KeyScope, n: uint32, rand: Prng, w': World)
    requires Lawful(c) && WorldOK(c, sec, w) && Step(c, w, DoLoad(sc, n, rand), w')
    requires sc in w.m.scopes && sc in w.db && n !in w.m.scopes[sc].accounts
    requires n in w.db[sc].table.rows && n != IMPORTED
    ensures LoadsExactly(c, sec, w, sc, n, rand, w')
  {
    hide Lawful, WorldOK, MgrOK, DbOK, TablesOK, OpenKey, LoadAccount, AccountKey, DeriveKey, Loaded, Buildable, Step;
    LoadStep(c, w, sc, n, rand, w');
    PartsOK(c, sec, w);
    LoadAccountExact(c, sec, w.m, w.db, sc, n, rand);
  }

  // ------------------------------------------------------------- account creation

  /** What account creation writes: one row under one number and name, with the keys of its
      path and unused counters, the two index entries, and the counter. */
  ghost predicate Creates(c: Crypto, sec: Secrets, sc: KeyScope, d: ScopeDb, n: uint32, x: Bytes, d': ScopeDb) {
    && d' == d.(table := d'.table)
    && d'.table.names == d.table.names[n := x] && d'.table.ids == d.table.ids[x := n] && d'.table.last == Some(n)
    && n in d'.table.rows && d'.table.rows == d.table.rows[n := d'.table.rows[n]]
    && var row := d'.table.rows[n];
    && row.name == x && row.nextExternal == 0 && row.nextInternal == 0
    && AccountKey(c, sec.root, sc, n).Ok? && c.neuter(AccountKey(c, sec.root, sc, n).value).Some?
    && OpenKey(c, sec.priv, row.privEnc) == Some(AccountKey(c, sec.root, sc, n).value)
    && OpenKey(c, sec.pub, row.pubEnc) == c.neuter(AccountKey(c, sec.root, sc, n).value)
  }

  lemma ServeCreates(c: Crypto, sec: Secrets, sc: KeyScope, d: ScopeDb, q: Request)
    requires Lawful(c) && ScopeOK(c, sec, sc, d) && Serve(c, Ring(sec.pub, sec.priv), d, q).Ok?
    ensures Creates(c, sec, sc, d, Number(d.table, q), Name(q), After(c, Ring(sec.pub, sec.priv), d, q))
  {
    hide Lawful, Serve, AccountRowFor, Storable, Number, Name, OpenKey, DeriveAccountKey, DeriveCoinTypeKey;
    var ring := Ring(sec.pub, sec.priv);
    ServedTable(c, ring, d, q);
    NewRowHolds(c, ring, d, Number(d.table, q), Name(q), q.rand);
    NewRowFields(c, ring, d, Number(d.table, q), Name(q), q.rand);
  }

  lemma NewRowFields(c: Crypto, ring: Ring, db: ScopeDb, n: uint32, x: Bytes, rand: Prng)
    requires Lawful(c) && AccountRowFor(c, ring, db.coinPub, db.coinPriv, n, x, rand).Ok?
    ensures var row := AccountRowFor(c, ring, db.coinPub, db.coinPriv, n, x, rand).value;
            row.name == x && row.nextExternal == 0 && row.nextInternal == 0
  {
    hide Lawful, Decrypt, DeriveAccountKey, Nonce, RowHolds;
  }

  /** The number a request asks for: the given one, or the one after the recorded counter. */
  function AskedNumber(t: Table, q: Request): uint32 {
    if q.Raw? then q.number else if t.last == None then 0 else (t.last.value + 1) % 0x1_0000_0000
  }

  ghost predicate CreatesExactly(c: Crypto, sec: Secrets, w: World, sc: KeyScope, q: Request, w': World)
    requires sc in w.db
  {
    var n := AskedNumber(w.db[sc].table, q);
    if !w.m.locked && Creatable(c, sec, sc, w.db[sc], n, q) then
      && sc in w'.db && w' == w.(db := w.db[sc := w'.db[sc]])
      && Creates(c, sec, sc, w.db[sc], n, Name(q), w'.db[sc])
    else w' == w
  }

  /** NewAccount and NewRawAccount over a step of a run: on an unlocked manager the account is
      created exactly under the conditions of creation, under the next number or the given
      one, and otherwise, or while locked, nothing changes. */
  lemma NewAccountEffect(c: Crypto, sec: Secrets, w: World, sc: KeyScope, q: Request, w': World)
    requires Lawful(c) && WorldOK(c, sec, w) && sc in w.db && Step(c, w, DoNewAccount(sc, q), w')
    ensures CreatesExactly(c, sec, w, sc, q, w')
  {
    hide Lawful, WorldOK, MgrOK, DbOK, TablesOK, OpenKey, Serve, Number, Name, AccountKey, Creates, ScopeOK, Step,
      After, Nonce;
    PartsOK(c, sec, w);
    ScopeAt(c, sec, w, sc);
    NewAccountStep(c, w, sc, q, w');
    NumberIs(w.db[sc].table, q);
    NewAccountExact(c, sec, sc, w.db[sc], q);
    if Serve(c, Ring(sec.pub, sec.priv), w.db[sc], q).Ok? {
      ServeCreates(c, sec, sc, w.db[sc], q);
    } else {
      Unserved(c, Ring(sec.pub, sec.priv), w.db[sc], q);
      assert w.db[sc := w.db[sc]] == w.db;
    }
  }

  lemma NewAccountStep(c: Crypto, w: World, sc: KeyScope, q: Request, w': World)
    requires Step(c, w, DoNewAccount(sc, q), w') && sc in w.db
    ensures w' == if w.m.watchingOnly || w.m.locked then w
                  else w.(db := w.db[sc := After(c, Ring(w.m.cryptoPub, w.m.cryptoPriv), w.db[sc], q)])
  {
    hide After;
  }

  lemma Unserved(c: Crypto, ring: Ring, d: ScopeDb, q: Request)
    requires !Serve(c, ring, d, q).Ok?
    ensures After(c, ring, d, q) == d
  {
    hide Serve;
  }

  lemma NumberIs(t: Table, q: Request)
    ensures Number(t, q) == AskedNumber(t, q)
  {
  }

  predicate Creatable(c: Crypto, sec: Secrets, sc: KeyScope, d: ScopeDb, n: uint32, q: Request) {
    && Name(q) != [] && Name(q) != IMPORTED_NAME && Name(q) !in d.table.ids && |Name(q)| <= 32764
    && AccountKey(c, sec.root, sc, n).Ok? && c.neuter(AccountKey(c, sec.root, sc, n).value).Some?
    && Nonce(q.rand, 0).Some? && Nonce(q.rand, 1).Some?
  }

  /** The errors of account creation, in the order in which they are found; only a name too
      long to be stored can fault. */
  lemma NewAccountErrors(c: Crypto, sec: Secrets, sc: KeyScope, d: ScopeDb, q: Request)
    requires Lawful(c) && ScopeOK(c, sec, sc, d)
    ensures var r, n := Serve(c, Ring(sec.pub, sec.priv), d, q), Number(d.table, q);
            && (r.Fault? ==> |Name(q)| > 32764)
            && (r.Err? ==>
                  r.code ==
                  if Name(q) == [] || Name(q) == IMPORTED_NAME then ErrInvalidAccount
                  else if Name(q) in d.table.ids then ErrDuplicateAccount
                  else if !AccountKey(c, sec.root, sc, n).Ok? then ErrKeyChain
                  else if c.neuter(AccountKey(c, sec.root, sc, n).value) == None then ErrKeyChain
                  else if Nonce(q.rand, 0) == None || Nonce(q.rand, 1) == None then ErrCrypto
                  else ErrDatabase)
  {
    hide Lawful, Number, Name, DeriveAccountKey, DeriveCoinTypeKey, RowOK, Storable, StoredRow, Nonce, SealRow, Decrypt;
    var ring, n := Ring(sec.pub, sec.priv), Number(d.table, q);
    var k := DeriveAccountKey(c, DeriveCoinTypeKey(c, sec.root, sc).value, n);
    if k.Ok? {
      SealRowExact(c, ring, k.value, Name(q), q.rand);
      SealRowErrors(c, ring, k.value, Name(q), q.rand);
    }
  }

  lemma SealRowErrors(c: Crypto, ring: Ring, key: ExtKey, name: Bytes, rand: Prng)
    ensures var r := SealRow(c, ring, key, name, rand, 0);
            !r.Fault? && (r.Err? ==> r.code == if c.neuter(key) == None then ErrKeyChain else ErrCrypto)
  {
    hide Nonce;
  }

  // --------------------------------------------------------------- scope creation

  /** NewScopedKeyManager over a step of a run: on an unlocked manager a new scope is created
      exactly when its keys derive and four nonces can be read; the manager then lists it with
      its schema and nothing cached.  In every other case nothing changes. */
  lemma NewScopeEffect(c: Crypto, sec: Secrets, w: World, sc: KeyScope, schema: Schema, rand: Prng, w': World)
    requires Lawful(c) && WorldOK(c, sec, w) && Step(c, w, DoNewScope(sc, schema, rand), w')
    ensures if !w.m.locked && sc !in w.db && Derivable(c, sec.root, sc) && FourNonces(rand, 0) then
              && sc in w'.db && ScopeOK(c, sec, sc, w'.db[sc]) && w'.db[sc].table.rows.Keys == {0, IMPORTED}
              && w'.db[sc].table.last == None
              && w' == w.(db := w.db[sc := w'.db[sc]],
                          m := w.m.(scopes := w.m.scopes[sc := Scoped(schema, map[], map[], [])]))
            else w' == w
  {
    hide Lawful, MgrOK, ScopeOK, DbOK, TablesOK, CreateScope, Derivable, FourNonces;
    PartsOK(c, sec, w);
    if !w.m.locked && sc !in w.db {
      CreateScopeExact(c, Ring(sec.pub, sec.priv), sec.root, sc, None, rand, 0);
      if Derivable(c, sec.root, sc) && FourNonces(rand, 0) {
        CreateScopeOK(c, sec, sc, None, rand, 0);
      }
    }
  }
}
