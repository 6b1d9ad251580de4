/** Address indices over whole runs of the manager, closing and reopening included: when
    two requests on one branch of an account can hand out the same index, exactly.
 */
module AllocationRuns {
  import opened ByteCodec
  import opened Errors
  import opened Primitives
  import opened Snacl
  import opened AccountRow
  import opened AccountTable
  import opened Keyring
  import opened KeyringInvariant
  import opened KeyringLocking
  import opened KeyringAddresses
  import opened KeyringRuns
  import opened ScopeCreation

  // ----------------------------------------------- what a step does to the caches

  predicate Cached(m: Mgr, sc: KeyScope, n: uint32) { sc in m.scopes && n in m.scopes[sc].accounts }

  predicate SameCounters(a: Account, b: Account) {
    b.nextExternal == a.nextExternal && b.nextInternal == a.nextInternal
  }

  ghost predicate LoadsAt(m: Mgr, m': Mgr, db: Db, sc: KeyScope, n: uint32) {
    && (Cached(m, sc, n) ==> Cached(m', sc, n) && SameCounters(m.scopes[sc].accounts[n], m'.scopes[sc].accounts[n]))
    && (Cached(m', sc, n) && !Cached(m, sc, n) ==>
          && sc in db && n in db[sc].table.rows
          && m'.scopes[sc].accounts[n].nextExternal == db[sc].table.rows[n].nextExternal
          && m'.scopes[sc].accounts[n].nextInternal == db[sc].table.rows[n].nextInternal)
  }

  /** Cached accounts keep their counters; newly cached ones have those of their rows. */
  ghost predicate Loads(m: Mgr, m': Mgr, db: Db) {
    forall sc, n :: LoadsAt(m, m', db, sc, n)
  }

  lemma LoadsTrans(a: Mgr, b: Mgr, d: Mgr, db: Db)
    requires Loads(a, b, db) && Loads(b, d, db)
    ensures Loads(a, d, db)
  {
    forall sc, n ensures LoadsAt(a, d, db, sc, n) {
      assert LoadsAt(a, b, db, sc, n) && LoadsAt(b, d, db, sc, n);
    }
  }

  ghost predicate SameAccountMaps(m: Mgr, m': Mgr) {
    && (forall sc :: sc in m.scopes ==> sc in m'.scopes && m'.scopes[sc].accounts == m.scopes[sc].accounts)
    && (forall sc :: sc in m'.scopes && sc !in m.scopes ==> m'.scopes[sc].accounts == map[])
  }

  lemma SameAccountsLoad(m: Mgr, m': Mgr, db: Db)
    requires SameAccountMaps(m, m')
    ensures Loads(m, m', db)
  {
  }

  lemma LockLoads(m: Mgr, db: Db)
    ensures Loads(m, LockOf(m), db)
  {
    hide LockOf;
    LockFacts(m);
    forall sc, n ensures LoadsAt(m, LockOf(m), db, sc, n) {
      if sc in m.scopes { LockedScopeFacts(m, sc); }
    }
  }

  lemma SameButKey(a: Account, b: Account)
    requires b.(keyPriv := None) == a.(keyPriv := None)
    ensures SameCounters(a, b)
  {
    assert b.(keyPriv := None).nextExternal == b.nextExternal && b.(keyPriv := None).nextInternal == b.nextInternal;
  }

  lemma DrainLoads(c: Crypto, ck: Bytes, pre: Mgr, post: Mgr, db: Db)
    requires Structured(pre) && Drained(c, ck, pre, post)
    ensures Loads(pre, post, db)
  {
    hide Structured, HeapFilled, PoppedFilled;
    forall sc, n ensures LoadsAt(pre, post, db, sc, n) {
      if Cached(pre, sc, n) || Cached(post, sc, n) {
        assert SameAccounts(pre.scopes[sc], post.scopes[sc]);
        SameButKey(pre.scopes[sc].accounts[n], post.scopes[sc].accounts[n]);
      }
    }
  }

  lemma UnlockLoads(c: Crypto, pre: Mgr, pass: Bytes, rand: Prng, post: Mgr, r: Outcome<()>, db: Db)
    requires Structured(pre) && Unlocks(c, pre, pass, rand, post, r)
    ensures Loads(pre, post, db)
  {
    hide Structured, Loads, LockOf, OpensWith, Decrypt, DeriveKeySpec;
    SameAccountsLoad(pre, pre, db);
    if !pre.watchingOnly && !pre.locked {
      var wiped := pre.(salt := WipedSalt(pre.salt, pass));
      SameAccountsLoad(pre, wiped, db);
      LockLoads(wiped, db);
      LoadsTrans(pre, wiped, LockOf(wiped), db);
    } else if !pre.watchingOnly {
      LockLoads(pre, db);
      var (k, e) := DeriveKeySpec(c, pre.params, pass);
      if e == None && Decrypt(c, k.value, pre.cryptoPrivEnc).Some? {
        OpensLoads(c, pre, pass, k.value, CopyInto(pre.cryptoPriv, Decrypt(c, k.value, pre.cryptoPrivEnc).value), rand,
                   post, r, db);
      }
    }
  }

  lemma OpensLoads(c: Crypto, pre: Mgr, pass: Bytes, k: Bytes, ck: Bytes, rand: Prng, post: Mgr, r: Outcome<()>, db: Db)
    requires Structured(pre) && OpensWith(c, pre, pass, k, ck, rand, post, r)
    ensures Loads(pre, post, db)
  {
    hide Structured, Loads, LockOf, Drained, AccountsOpen, Obstacle, NoncesFor, QueueTotal;
    if r.Ok? {
      DrainLoads(c, ck, pre, post, db);
    } else {
      var scopes, heap :| (var mid := pre.(scopes := scopes, heap := heap);
                           Drained(c, ck, pre, mid) && post == LockOf(mid));
      var mid := pre.(scopes := scopes, heap := heap);
      DrainLoads(c, ck, pre, mid, db);
      LockLoads(mid, db);
      LoadsTrans(pre, mid, post, db);
    }
  }

  // --------------------------------------------------------- loads and addresses

  lemma ManagedAccounts(c: Crypto, m: Mgr, sc: KeyScope, key: ExtKey, path: Path, acctPriv: Option<ExtKey>, rand: Prng,
                        i: nat)
    requires sc in m.scopes
    ensures SameAccountMaps(m, KeyToManaged(c, m, sc, key, path, acctPriv, rand, i).0)
  {
    hide NewAddress;
  }

  lemma LoadLoads(c: Crypto, m: Mgr, db: Db, sc: KeyScope, n: uint32, rand: Prng)
    requires sc in m.scopes
    ensures Loads(m, LoadAccount(c, m, db, sc, n, rand).0, db)
  {
    hide OpenKey, DeriveKey, KeyToManaged, WorkingKey, Loads;
    SameAccountsLoad(m, m, db);
    if n !in m.scopes[sc].accounts && sc in db && n in db[sc].table.rows && LoadAccount(c, m, db, sc, n, rand).1.Ok? {
      var row := db[sc].table.rows[n];
      var a := AccountFrom(c, m, row, OpenKey(c, m.cryptoPub, row.pubEnc).value);
      var key := DeriveKey(c, WorkingKey(m, a), EXTERNAL, LastIndex(row)).value;
      ManagedAccounts(c, m, sc, key, Path(n, EXTERNAL, LastIndex(row)), a.keyPriv, rand, 0);
      var (m', ref) := KeyToManaged(c, m, sc, key, Path(n, EXTERNAL, LastIndex(row)), a.keyPriv, rand, 0);
      SameAccountsLoad(m, m', db);
      NewlyCached(m', db, sc, n, a.(lastInternal := ref.value));
      LoadsTrans(m, m', WithAccount(m', sc, n, a.(lastInternal := ref.value)), db);
    }
  }

  lemma NewlyCached(m: Mgr, db: Db, sc: KeyScope, n: uint32, a: Account)
    requires sc in m.scopes && n !in m.scopes[sc].accounts && sc in db && n in db[sc].table.rows
    requires a.nextExternal == db[sc].table.rows[n].nextExternal && a.nextInternal == db[sc].table.rows[n].nextInternal
    ensures Loads(m, WithAccount(m, sc, n, a), db)
  {
  }

  lemma DeriveLoads(c: Crypto, m: Mgr, db: Db, sc: KeyScope, path: Path, rand: Prng)
    requires sc in m.scopes
    ensures Loads(m, DeriveAddress(c, m, db, sc, path, rand).0, db)
  {
    hide LoadAccount, DeriveKey, KeyToManaged, WorkingKey, Loads;
    LoadLoads(c, m, db, sc, path.account, rand);
    var (m1, loaded) := LoadAccount(c, m, db, sc, path.account, rand);
    if loaded.Ok? && DeriveKey(c, WorkingKey(m1, m1.scopes[sc].accounts[path.account]), path.branch, path.index).Ok? {
      var a := m1.scopes[sc].accounts[path.account];
      var key := DeriveKey(c, WorkingKey(m1, a), path.branch, path.index).value;
      ManagedAccounts(c, m1, sc, key, path, a.keyPriv, rand, 1);
      SameAccountsLoad(m1, KeyToManaged(c, m1, sc, key, path, a.keyPriv, rand, 1).0, db);
      LoadsTrans(m, m1, KeyToManaged(c, m1, sc, key, path, a.keyPriv, rand, 1).0, db);
    }
  }

  lemma CacheLoads(c: Crypto, m: Mgr, db: Db, sc: KeyScope, path: Path, rand: Prng)
    requires sc in m.scopes
    ensures Loads(m, CacheAddress(c, m, db, sc, path, rand).0, db)
  {
    hide DeriveAddress, Loads;
    DeriveLoads(c, m, db, sc, path, rand);
    var m2, m3 := DeriveAddress(c, m, db, sc, path, rand).0, CacheAddress(c, m, db, sc, path, rand).0;
    SameAccountsLoad(m2, m3, db);
    LoadsTrans(m, m2, m3, db);
  }

  lemma ReadBackLoads(c: Crypto, m: Mgr, db: Db, sc: KeyScope, a: Address, rand: Prng)
    requires sc in m.scopes
    ensures Loads(m, ReadBack(c, m, db, sc, a, rand).0, db)
  {
    hide CacheAddress, Loads, Printed;
    CacheLoads(c, m, db, sc, a.path, rand);
    var m1, m2 := CacheAddress(c, m, db, sc, a.path, rand).0, ReadBack(c, m, db, sc, a, rand).0;
    SameAccountsLoad(m1, m2, db);
    LoadsTrans(m, m1, m2, db);
  }

  lemma {:induction false} CacheAllLoads(c: Crypto, m: Mgr, db: Db, sc: KeyScope, made: seq<Address>, rand: Prng,
                                         i: nat)
    requires sc in m.scopes
    ensures Loads(m, CacheAll(c, m, db, sc, made, rand, i).0, db)
    decreases |made|
  {
    hide ReadBack, Loads;
    SameAccountsLoad(m, m, db);
    if made != [] {
      ReadBackLoads(c, m, db, sc, made[0], Later(rand, i));
      var m1 := ReadBack(c, m, db, sc, made[0], Later(rand, i)).0;
      CacheAllLoads(c, m1, db, sc, made[1..], rand, i + 2);
      LoadsTrans(m, m1, CacheAll(c, m1, db, sc, made[1..], rand, i + 2).0, db);
    }
  }

  lemma {:induction false} CommitAllAccounts(c: Crypto, m: Mgr, sc: KeyScope, made: seq<Address>)
    requires sc in m.scopes
    ensures SameAccountMaps(m, CommitAll(c, m, sc, made))
    decreases |made|
  {
    if made != [] {
      CommitAllAccounts(c, CommitOne(c, m, sc, made[0]), sc, made[1..]);
    }
  }

  // ------------------------------------------------------------- one allocation

  /** The same accounts are cached, and all but account n of the scope are unchanged. */
  ghost predicate OnlyAccount(m: Mgr, m': Mgr, sc: KeyScope, n: uint32) {
    && (forall t, k :: Cached(m, t, k) <==> Cached(m', t, k))
    && (forall t, k :: Cached(m, t, k) && (t != sc || k != n) ==> m'.scopes[t].accounts[k] == m.scopes[t].accounts[k])
  }

  lemma CountedOnly(m: Mgr, m': Mgr, sc: KeyScope, n: uint32, a: Account)
    requires Cached(m, sc, n) && SameAccountMaps(WithAccount(m, sc, n, a), m')
    ensures OnlyAccount(m, m', sc, n) && Cached(m', sc, n) && m'.scopes[sc].accounts[n] == a
  {
  }

  /** A committed request at the indices s: the account's counter of the branch moves just
      past them in cache and row, nothing else of any account does. */
  ghost predicate Advances(m: Mgr, m': Mgr, db: Db, db': Db, sc: KeyScope, n: uint32, q: Ask, s: seq<uint32>) {
    && s != [] && s[|s| - 1] < W32 - 1 && Cached(m, sc, n) && sc in db && n in db[sc].table.rows
    && CachedCounter(m.scopes[sc].accounts[n], q) <= s[|s| - 1]
    && db' == MoveRow(db, sc, n, A.Branch(q), s)
    && OnlyAccount(m, m', sc, n)
    && var a, b := m.scopes[sc].accounts[n], m'.scopes[sc].accounts[n];
       if q.internal then b.nextInternal == s[|s| - 1] + 1 && b.nextExternal == a.nextExternal
       else b.nextExternal == s[|s| - 1] + 1 && b.nextInternal == a.nextInternal
  }

  /** The same, for the manager whose counter has just been moved. */
  lemma CountedAdvances(m: Mgr, m': Mgr, db: Db, sc: KeyScope, n: uint32, q: Ask, s: seq<uint32>, last: nat)
    requires Cached(m, sc, n) && sc in db && n in db[sc].table.rows && s != []
    requires CachedCounter(m.scopes[sc].accounts[n], q) <= s[|s| - 1] < W32 - 1
    requires SameAccountMaps(WithAccount(m, sc, n, Moved(m.scopes[sc].accounts[n], q, s[|s| - 1] + 1, last)), m')
    ensures Advances(m, m', db, MoveRow(db, sc, n, A.Branch(q), s), sc, n, q, s)
  {
    hide MoveRow, OnlyAccount, SameAccountMaps, WithAccount;
    CountedOnly(m, m', sc, n, Moved(m.scopes[sc].accounts[n], q, s[|s| - 1] + 1, last));
  }

  lemma CommitAdvances(c: Crypto, m: Mgr, db: Db, sc: KeyScope, n: uint32, q: Ask, s: seq<uint32>, made: seq<Address>)
    requires Cached(m, sc, n) && sc in db && n in db[sc].table.rows && s != []
    requires CachedCounter(m.scopes[sc].accounts[n], q) <= s[|s| - 1] < W32 - 1
    ensures Advances(m, CommitBatch(c, m, sc, n, q, s[|s| - 1] + 1, made),
                     db, MoveRow(db, sc, n, A.Branch(q), s), sc, n, q, s)
  {
    hide CommitAll, MoveRow, Advances, SameAccountMaps;
    var last := if made == [] then 0 else |m.heap| + (|made| - 1);
    var counted := WithAccount(m, sc, n, Moved(m.scopes[sc].accounts[n], q, s[|s| - 1] + 1, last));
    CommitAllAccounts(c, counted, sc, made);
    CountedAdvances(m, CommitBatch(c, m, sc, n, q, s[|s| - 1] + 1, made), db, sc, n, q, s, last);
  }

  /** nextAddresses either commits at some indices or leaves the rows alone. */
  lemma NextShape(c: Crypto, sec: Secrets, m: Mgr, db: Db, sc: KeyScope, n: uint32, q: Ask, rand: Prng, m': Mgr,
                  db': Db, r: Outcome<seq<nat>>)
    requires Lawful(c) && MgrOK(c, sec, m) && DbOK(c, sec, db) && sc in m.scopes
    requires NextAddresses(c, m, db, sc, n, q, rand) == (m', db', r)
    ensures (db' == db && Loads(m, m', db)) ||
            (r.Ok? && exists m2, s :: Loads(m, m2, db) && Advances(m2, m', db, db', sc, n, q, s))
  {
    hide Lawful, MgrOK, DbOK, Loads, Advances, LoadAccount, Indices, BuildAll, StoreBatch, BatchOK;
    LoadLoads(c, m, db, sc, n, rand);
    LoadAccountOK(c, sec, m, db, sc, n, rand);
    var (m1, loaded) := LoadAccount(c, m, db, sc, n, rand);
    if loaded.Ok? && Indices(c, m1, m1.scopes[sc].accounts[n], q).Ok? {
      var s := Indices(c, m1, m1.scopes[sc].accounts[n], q).value;
      IndicesAscend(c, m1, m1.scopes[sc].accounts[n], q);
      var made := BuildAll(c, m1, sc, m1.scopes[sc].accounts[n], n, A.Branch(q), s, rand, 1);
      if made.Ok? {
        BuildAllOK(c, sec, m1, sc, n, A.Branch(q), s, rand, 1);
        BatchPaths(c, sec, m1, sc, n, A.Branch(q), s, made.value);
        StoreShape(c, sec, m1, db, sc, n, q, s, made.value, rand, m', db', r);
        if !(db' == db && Loads(m1, m', db)) {
          var m2 :| Loads(m1, m2, db) && Advances(m2, m', db, db', sc, n, q, s);
          LoadsTrans(m, m1, m2, db);
        } else {
          LoadsTrans(m, m1, m', db);
        }
      }
    }
  }

  lemma StoreShape(c: Crypto, sec: Secrets, m: Mgr, db: Db, sc: KeyScope, n: uint32, q: Ask, s: seq<uint32>,
                   made: seq<Address>, rand: Prng, m': Mgr, db': Db, r: Outcome<seq<nat>>)
    requires Lawful(c) && MgrOK(c, sec, m) && DbOK(c, sec, db) && Cached(m, sc, n)
    requires forall k :: 0 <= k < |s| ==> CachedCounter(m.scopes[sc].accounts[n], q) <= s[k] < W32 - 1
    requires forall k :: 0 <= k < |made| ==> made[k].path.account == n
    requires StoreBatch(c, m, db, sc, n, q, s, made, rand) == (m', db', r)
    ensures (db' == db && Loads(m, m', db)) ||
            (r.Ok? && exists m2 :: Loads(m, m2, db) && Advances(m2, m', db, db', sc, n, q, s))
  {
    hide Lawful, MgrOK, DbOK, Loads, Advances, CacheAll, CommitBatch, MoveRow, Refs, CachedCounter;
    SameAccountsLoad(m, m, db);
    CacheAllLoads(c, m, db, sc, made, rand, 1 + |made|);
    CacheAllOK(c, sec, m, db, sc, n, made, rand, 1 + |made|);
    var (m2, back) := CacheAll(c, m, db, sc, made, rand, 1 + |made|);
    if s != [] && KeyType(AddrType(m.scopes[sc].schema, A.Branch(q))) && sc in db && n in db[sc].table.rows
      && back.Ok? {
      CommitAdvances(c, m2, db, sc, n, q, s, made);
    }
  }

  // -------------------------------------------------- one manager: counters grow

  ghost predicate CounterGrows(m: Mgr, m': Mgr, sc: KeyScope, n: uint32) {
    Cached(m, sc, n) ==>
      && Cached(m', sc, n)
      && m.scopes[sc].accounts[n].nextExternal <= m'.scopes[sc].accounts[n].nextExternal
      && m.scopes[sc].accounts[n].nextInternal <= m'.scopes[sc].accounts[n].nextInternal
  }

  /** Cached accounts stay cached and their counters never move back. */
  ghost predicate CountersGrow(m: Mgr, m': Mgr) {
    forall sc, n :: CounterGrows(m, m', sc, n)
  }

  lemma GrowTrans(a: Mgr, b: Mgr, d: Mgr)
    requires CountersGrow(a, b) && CountersGrow(b, d)
    ensures CountersGrow(a, d)
  {
    forall sc, n ensures CounterGrows(a, d, sc, n) {
      assert CounterGrows(a, b, sc, n) && CounterGrows(b, d, sc, n);
    }
  }

  lemma LoadsGrow(m: Mgr, m': Mgr, db: Db)
    requires Loads(m, m', db)
    ensures CountersGrow(m, m')
  {
    forall sc, n ensures CounterGrows(m, m', sc, n) {
      assert LoadsAt(m, m', db, sc, n);
    }
  }

  lemma AdvancesGrow(m: Mgr, m': Mgr, db: Db, db': Db, sc: KeyScope, n: uint32, q: Ask, s: seq<uint32>)
    requires Advances(m, m', db, db', sc, n, q, s)
    ensures CountersGrow(m, m')
  {
    hide MoveRow;
    forall t, k ensures CounterGrows(m, m', t, k) {
      if Cached(m, t, k) { assert Cached(m', t, k); }
    }
  }

  /** Every step but allocation and account creation only loads; allocation loads and
      advances; creation does not touch the manager. */
  lemma StepLoads(c: Crypto, sec: Secrets, w: World, op: Op, w': World)
    requires Lawful(c) && WorldOK(c, sec, w) && Step(c, w, op, w') && !op.DoReopen? && !op.DoNextAddresses?
    ensures Loads(w.m, w'.m, w.db)
    ensures !op.DoNewAccount? && !op.DoNewScope? ==> w'.db == w.db
  {
    hide Lawful, MgrOK, DbOK, TablesOK, Loads, Unlocks, LockOf, LoadAccount, DeriveAddress, CacheAddress, OpenKey,
      Structured, EvictAddress, PrivKey, AfterNewAccount, AfterNewScope;
    SameAccountsLoad(w.m, w.m, w.db);
    match op
    case DoLock => LockLoads(w.m, w.db);
    case DoUnlock(pass, rand) =>
      var r :| Unlocks(c, w.m, pass, rand, w'.m, r);
      UnlockLoads(c, w.m, pass, rand, w'.m, r, w.db);
    case DoLoad(sc, n, rand) => if sc in w.m.scopes { LoadLoads(c, w.m, w.db, sc, n, rand); }
    case DoDerive(sc, path, rand) => if sc in w.m.scopes { DeriveLoads(c, w.m, w.db, sc, path, rand); }
    case DoCache(sc, path, rand) => if sc in w.m.scopes { CacheLoads(c, w.m, w.db, sc, path, rand); }
    case DoEvict(sc, id) => if sc in w.m.scopes { EvictLoads(w.m, w.db, sc, id); }
    case DoPrivKey(ref) => if ref < |w.m.heap| { PrivKeyScopes(c, w.m, ref); SameAccountsLoad(w.m, w'.m, w.db); }
    case DoNewAccount(sc, q) => NewAccountKeepsManager(c, w, sc, q);
    case DoNewScope(sc, schema, rand) => NewScopeLoads(c, w, sc, schema, rand);
  }

  lemma EvictLoads(m: Mgr, db: Db, sc: KeyScope, id: Bytes)
    requires sc in m.scopes
    ensures Loads(m, EvictAddress(m, sc, id), db)
  {
    SameAccountsLoad(m, EvictAddress(m, sc, id), db);
  }

  lemma NewAccountKeepsManager(c: Crypto, w: World, sc: KeyScope, q: Request)
    ensures AfterNewAccount(c, w, sc, q).m == w.m
  {
    hide After;
  }

  lemma NewScopeLoads(c: Crypto, w: World, sc: KeyScope, schema: Schema, rand: Prng)
    requires w.m.scopes.Keys == w.db.Keys
    ensures Loads(w.m, AfterNewScope(c, w, sc, schema, rand).m, w.db)
  {
    hide CreateScope, OpenKey;
    SameAccountsLoad(w.m, AfterNewScope(c, w, sc, schema, rand).m, w.db);
  }

  lemma StepGrows(c: Crypto, sec: Secrets, w: World, op: Op, w': World)
    requires Lawful(c) && WorldOK(c, sec, w) && Step(c, w, op, w') && !op.DoReopen?
    ensures CountersGrow(w.m, w'.m)
  {
    hide Lawful, MgrOK, DbOK, TablesOK, CountersGrow, Loads, Advances, NextAddresses, Unlocks, LockOf, LoadAccount,
      DeriveAddress, CacheAddress, OpenKey, Structured, EvictAddress, PrivKey, AfterNewAccount, AfterNewScope;
    if op.DoNextAddresses? {
      if op.sc in w.m.scopes {
        var (m', db', r) := NextAddresses(c, w.m, w.db, op.sc, op.account, op.ask, op.rand);
        NextShape(c, sec, w.m, w.db, op.sc, op.account, op.ask, op.rand, m', db', r);
        if Loads(w.m, m', w.db) {
          LoadsGrow(w.m, m', w.db);
        } else {
          var m2, s :| Loads(w.m, m2, w.db) && Advances(m2, m', w.db, db', op.sc, op.account, op.ask, s);
          LoadsGrow(w.m, m2, w.db);
          AdvancesGrow(m2, m', w.db, db', op.sc, op.account, op.ask, s);
          GrowTrans(w.m, m2, m');
        }
      } else {
        SameAccountsLoad(w.m, w.m, w.db);
        LoadsGrow(w.m, w.m, w.db);
      }
    } else {
      StepLoads(c, sec, w, op, w');
      LoadsGrow(w.m, w'.m, w.db);
    }
  }

  ghost predicate AllOK(c: Crypto, sec: Secrets, ws: seq<World>) {
    forall k :: 0 <= k < |ws| ==> WorldOK(c, sec, ws[k])
  }

  /** Between two points of a run with the same manager, cached accounts stay cached and
      their counters never move back, whatever rows were overwritten. */
  lemma {:induction false} RunGrows(c: Crypto, sec: Secrets, ws: seq<World>, ops: seq<Op>, i: nat, j: nat)
    requires Lawful(c) && IsRun(c, ws, ops) && AllOK(c, sec, ws) && i <= j < |ws| && SameManager(ops, i, j)
    ensures CountersGrow(ws[i].m, ws[j].m)
    decreases j
  {
    hide Lawful, Step, WorldOK, CountersGrow;
    if i == j {
      SameAccountsLoad(ws[i].m, ws[i].m, ws[i].db);
      LoadsGrow(ws[i].m, ws[i].m, ws[i].db);
    } else {
      RunGrows(c, sec, ws, ops, i, j - 1);
      StepGrows(c, sec, ws[j - 1], ops[j - 1], ws[j]);
      GrowTrans(ws[i].m, ws[j - 1].m, ws[j].m);
    }
  }

  // -------------------------------------- the stored counter: no overwritten row

  /** The creation of account n in scope sc succeeds at this step. */
  ghost predicate Overwrites(c: Crypto, w: World, op: Op, sc: KeyScope, n: uint32) {
    && op.DoNewAccount? && op.sc == sc && sc in w.db && !w.m.watchingOnly && !w.m.locked
    && Serve(c, Ring(w.m.cryptoPub, w.m.cryptoPriv), w.db[sc], op.q).Ok? && Number(w.db[sc].table, op.q) == n
  }

  function RowIndex(row: AcctRow, internal: bool): uint32 { if internal then row.nextInternal else row.nextExternal }
  function AccountIndex(a: Account, internal: bool): uint32 { if internal then a.nextInternal else a.nextExternal }

  /** The account is stored and, if cached, with the branch's counter of its row. */
  ghost predicate InStep(w: World, sc: KeyScope, n: uint32, internal: bool) {
    && sc in w.db && n in w.db[sc].table.rows
    && (Cached(w.m, sc, n) ==>
          AccountIndex(w.m.scopes[sc].accounts[n], internal) == RowIndex(w.db[sc].table.rows[n], internal))
  }

  lemma LoadsInStep(w: World, m: Mgr, sc: KeyScope, n: uint32, internal: bool)
    requires InStep(w, sc, n, internal) && Loads(w.m, m, w.db)
    ensures InStep(w.(m := m), sc, n, internal)
  {
    assert LoadsAt(w.m, m, w.db, sc, n);
  }

  lemma AdvancesInStep(w: World, m: Mgr, db: Db, sc: KeyScope, n: uint32, internal: bool, t: KeyScope, k: uint32,
                       q: Ask, s: seq<uint32>)
    requires InStep(w, sc, n, internal) && Advances(w.m, m, w.db, db, t, k, q, s)
    ensures InStep(w.(m := m, db := db), sc, n, internal)
    ensures RowIndex(db[sc].table.rows[n], internal) >= RowIndex(w.db[sc].table.rows[n], internal)
  {
    hide A.StoreAll;
    A.StoreAllMovesOneCounter(w.db[t].table.rows[k], A.Branch(q), s);
    A.JustPast(0, w.db[t].table.rows[k], q, s);
    assert Cached(m, sc, n) <==> Cached(w.m, sc, n);
    assert Cached(w.m, t, k);
  }

  lemma NextInStep(c: Crypto, sec: Secrets, w: World, t: KeyScope, k: uint32, q: Ask, rand: Prng, sc: KeyScope,
                   n: uint32, internal: bool)
    requires Lawful(c) && WorldOK(c, sec, w) && t in w.m.scopes && InStep(w, sc, n, internal)
    ensures var w' := AfterNextAddresses(c, w, t, k, q, rand);
            && InStep(w', sc, n, internal)
            && RowIndex(w'.db[sc].table.rows[n], internal) >= RowIndex(w.db[sc].table.rows[n], internal)
  {
    hide Lawful, MgrOK, DbOK, TablesOK, Loads, Advances, NextAddresses, InStep, OpenKey;
    var (m', db', r) := NextAddresses(c, w.m, w.db, t, k, q, rand);
    NextShape(c, sec, w.m, w.db, t, k, q, rand, m', db', r);
    assert sc in w.db && n in w.db[sc].table.rows by { StoredInStep(w, sc, n, internal); }
    if db' == w.db && Loads(w.m, m', w.db) {
      LoadsInStep(w, m', sc, n, internal);
    } else {
      var m2, s :| Loads(w.m, m2, w.db) && Advances(m2, m', w.db, db', t, k, q, s);
      LoadsInStep(w, m2, sc, n, internal);
      AdvancesInStep(w.(m := m2), m', db', sc, n, internal, t, k, q, s);
    }
    StoredInStep(AfterNextAddresses(c, w, t, k, q, rand), sc, n, internal);
  }

  lemma StoredInStep(w: World, sc: KeyScope, n: uint32, internal: bool)
    requires InStep(w, sc, n, internal)
    ensures sc in w.db && n in w.db[sc].table.rows
  {
  }

  lemma NewAccountRow(c: Crypto, w: World, t: KeyScope, q: Request, sc: KeyScope, n: uint32)
    requires sc in w.db && n in w.db[sc].table.rows && !Overwrites(c, w, DoNewAccount(t, q), sc, n)
    ensures var w' := AfterNewAccount(c, w, t, q);
            w'.m == w.m && sc in w'.db && n in w'.db[sc].table.rows && w'.db[sc].table.rows[n] == w.db[sc].table.rows[n]
  {
    hide Serve, Number, Name;
    if t == sc && !w.m.watchingOnly && !w.m.locked && Serve(c, Ring(w.m.cryptoPub, w.m.cryptoPriv), w.db[sc], q).Ok? {
      ServedTable(c, Ring(w.m.cryptoPub, w.m.cryptoPriv), w.db[sc], q);
    }
  }

  lemma NewAccountInStep(c: Crypto, w: World, t: KeyScope, q: Request, sc: KeyScope, n: uint32, internal: bool)
    requires InStep(w, sc, n, internal) && !Overwrites(c, w, DoNewAccount(t, q), sc, n)
    ensures var w' := AfterNewAccount(c, w, t, q);
            InStep(w', sc, n, internal) && w'.db[sc].table.rows[n] == w.db[sc].table.rows[n]
  {
    hide AfterNewAccount, Overwrites;
    NewAccountRow(c, w, t, q, sc, n);
  }

  lemma NewScopeRows(c: Crypto, w: World, t: KeyScope, schema: Schema, rand: Prng, sc: KeyScope)
    requires sc in w.db
    ensures sc in AfterNewScope(c, w, t, schema, rand).db && AfterNewScope(c, w, t, schema, rand).db[sc] == w.db[sc]
  {
    hide CreateScope, OpenKey;
  }

  /** Every step but an overwriting creation keeps cache and row in step and never moves the
      stored counter back; reopening too. */
  lemma StepInStep(c: Crypto, sec: Secrets, w: World, op: Op, w': World, sc: KeyScope, n: uint32, internal: bool)
    requires Lawful(c) && WorldOK(c, sec, w) && Step(c, w, op, w')
    requires InStep(w, sc, n, internal) && !Overwrites(c, w, op, sc, n)
    ensures InStep(w', sc, n, internal)
    ensures RowIndex(w'.db[sc].table.rows[n], internal) >= RowIndex(w.db[sc].table.rows[n], internal)
  {
    hide Lawful, WorldOK, Loads, NextAddresses, Unlocks, LockOf, LoadAccount, DeriveAddress, CacheAddress, Structured,
      EvictAddress, PrivKey, AfterNewAccount, AfterNewScope, AfterNextAddresses, Overwrites;
    match op
    case DoNextAddresses(t, k, q, rand) => if t in w.m.scopes { NextInStep(c, sec, w, t, k, q, rand, sc, n, internal); }
    case DoNewAccount(t, q) => NewAccountInStep(c, w, t, q, sc, n, internal);
    case DoReopen(salt) =>
    case DoNewScope(t, schema, rand) =>
      StepLoads(c, sec, w, op, w');
      LoadsInStep(w, w'.m, sc, n, internal);
      NewScopeRows(c, w, t, schema, rand, sc);
    case _ =>
      StepLoads(c, sec, w, op, w');
      LoadsInStep(w, w'.m, sc, n, internal);
  }

  /** Account n is not created anew between two points of a run. */
  ghost predicate NotOverwritten(c: Crypto, ws: seq<World>, ops: seq<Op>, i: nat, j: nat, sc: KeyScope, n: uint32) {
    forall k :: i <= k < j && k < |ops| && k < |ws| ==> !Overwrites(c, ws[k], ops[k], sc, n)
  }

  lemma {:induction false} RunInStep(c: Crypto, sec: Secrets, ws: seq<World>, ops: seq<Op>, i: nat, j: nat,
                                     sc: KeyScope, n: uint32, internal: bool)
    requires Lawful(c) && IsRun(c, ws, ops) && AllOK(c, sec, ws) && i <= j < |ws|
    requires InStep(ws[i], sc, n, internal) && NotOverwritten(c, ws, ops, i, j, sc, n)
    ensures InStep(ws[j], sc, n, internal)
    ensures RowIndex(ws[j].db[sc].table.rows[n], internal) >= RowIndex(ws[i].db[sc].table.rows[n], internal)
    decreases j
  {
    hide Lawful, Step, WorldOK, Overwrites;
    if i < j {
      RunInStep(c, sec, ws, ops, i, j - 1, sc, n, internal);
      StepInStep(c, sec, ws[j - 1], ops[j - 1], ws[j], sc, n, internal);
    }
  }

  // --------------------------------------------------------------- the next index

  /** The index the branch would be asked from: the cached counter, else the stored one. */
  function NextIndex(w: World, sc: KeyScope, n: uint32, internal: bool): uint32 {
    if Cached(w.m, sc, n) then AccountIndex(w.m.scopes[sc].accounts[n], internal)
    else if sc in w.db && n in w.db[sc].table.rows then RowIndex(w.db[sc].table.rows[n], internal)
    else 0
  }

  lemma LoadedIndex(c: Crypto, w: World, sc: KeyScope, n: uint32, rand: Prng, internal: bool)
    requires sc in w.m.scopes && LoadAccount(c, w.m, w.db, sc, n, rand).1.Ok?
    ensures AccountIndex(LoadAccount(c, w.m, w.db, sc, n, rand).0.scopes[sc].accounts[n], internal) ==
            NextIndex(w, sc, n, internal)
  {
    hide LoadAccount, Loads;
    LoadLoads(c, w.m, w.db, sc, n, rand);
    var m := LoadAccount(c, w.m, w.db, sc, n, rand).0;
    assert LoadsAt(w.m, m, w.db, sc, n) by { LoadsOne(w.m, m, w.db, sc, n); }
  }

  lemma LoadsOne(m: Mgr, m': Mgr, db: Db, sc: KeyScope, n: uint32)
    requires Loads(m, m', db)
    ensures LoadsAt(m, m', db, sc, n)
  {
  }

  /** The request at step i of the run succeeded with these addresses. */
  ghost predicate HandedAt(c: Crypto, ws: seq<World>, ops: seq<Op>, i: nat, sc: KeyScope, n: uint32, internal: bool,
                           refs: seq<nat>)
    requires IsRun(c, ws, ops)
  {
    && i < |ops| && ops[i].DoNextAddresses? && ops[i].sc == sc && ops[i].account == n && ops[i].ask.internal == internal
    && sc in ws[i].m.scopes
    && NextAddresses(c, ws[i].m, ws[i].db, sc, n, ops[i].ask, ops[i].rand) == (ws[i + 1].m, ws[i + 1].db, Ok(refs))
  }

  /** The first valid child is at or below any valid child from the start on. */
  lemma FirstIsLeast(c: Crypto, key: ExtKey, from: uint32, num: uint32, x: uint32)
    requires A.First(c, key, from, num).Ok? && |A.First(c, key, from, num).value| == num > 0
    requires from <= x < A.First(c, key, from, num).value[0]
    ensures c.child(key, x) == InvalidChild
  {
    hide A.First;
    A.FirstAscends(c, key, from, num);
    A.FirstSkipsOnlyInvalid(c, key, from, num, x);
  }

  /** The private and the public account key have the same valid non-hardened children. */
  lemma SameChildren(c: Crypto, k: ExtKey, branch: uint32, x: uint32)
    requires Lawful(c) && k.isPrivate && c.neuter(k).Some? && branch < HARDENED && x < HARDENED
    ensures c.child(k, branch).Child? <==> c.child(c.neuter(k).value, branch).Child?
    ensures c.child(k, branch).Child? && c.child(c.neuter(k).value, branch).Child? ==>
            (c.child(c.child(k, branch).key, x).Child? <==> c.child(c.child(c.neuter(k).value, branch).key, x).Child?)
  {
    hide HashLaws, BoxLaws, KeyLaws, SignLaws;
    var p := c.neuter(k).value;
    assert c.child(k, branch).Child? <==> c.child(p, branch).Child?;
    if c.child(k, branch).Child? {
      var b := c.child(k, branch).key;
      assert c.child(p, branch) == Child(c.neuter(b).value);
      assert c.child(b, x).Child? <==> c.child(c.neuter(b).value, x).Child?;
    }
  }

  /** A later request that starts at or below an index handed out before hands out an index
      at or below it again, locked or not. */
  lemma StartsBelow(c: Crypto, k: ExtKey, pub1: bool, from1: uint32, q1: Ask, pub2: bool, from2: uint32, q2: Ask,
                    x: uint32)
    requires Lawful(c) && k.isPrivate && c.neuter(k).Some? && q1.internal == q2.internal && q2.num > 0
    requires var key1 := if pub1 then c.neuter(k).value else k;
             A.Choose(c, key1, from1, q1).Ok? && x in A.Choose(c, key1, from1, q1).value
    requires var key2 := if pub2 then c.neuter(k).value else k; A.Choose(c, key2, from2, q2).Ok? && from2 <= x
    ensures var key2 := if pub2 then c.neuter(k).value else k;
            |A.Choose(c, key2, from2, q2).value| == q2.num && A.Choose(c, key2, from2, q2).value[0] <= x
  {
    hide A.First, A.OverLimit, HashLaws, BoxLaws, KeyLaws, SignLaws;
    var key1, key2 := if pub1 then c.neuter(k).value else k, if pub2 then c.neuter(k).value else k;
    var b1, b2 := c.child(key1, A.Branch(q1)).key, c.child(key2, A.Branch(q2)).key;
    A.FirstAscends(c, b1, from1, q1.num);
    A.FirstAscends(c, b2, from2, q2.num);
    var s2 := A.First(c, b2, from2, q2.num).value;
    if s2[0] > x {
      StillValid(c, k, pub1, pub2, A.Branch(q1), x, s2[0]);
      FirstIsLeast(c, b2, from2, q2.num, x);
      assert false;
    }
  }

  /** A child valid under one form of the account key is valid under the other, below some
      child that is valid there. */
  lemma StillValid(c: Crypto, k: ExtKey, pub1: bool, pub2: bool, branch: uint32, x: uint32, y: uint32)
    requires Lawful(c) && k.isPrivate && c.neuter(k).Some? && branch < HARDENED && x <= y
    requires var key1 := if pub1 then c.neuter(k).value else k;
             c.child(key1, branch).Child? && c.child(c.child(key1, branch).key, x).Child?
    requires var key2 := if pub2 then c.neuter(k).value else k;
             c.child(key2, branch).Child? && c.child(c.child(key2, branch).key, y).Child?
    ensures var key2 := if pub2 then c.neuter(k).value else k; c.child(c.child(key2, branch).key, x).Child?
  {
    hide HashLaws, BoxLaws, KeyLaws, SignLaws;
    if pub1 != pub2 {
      var p := c.neuter(k).value;
      assert !c.child(p, branch).key.isPrivate;
      SameChildren(c, k, branch, x);
    }
  }

  lemma WorkingIs(c: Crypto, sec: Secrets, m: Mgr, sc: KeyScope, n: uint32)
    requires MgrOK(c, sec, m) && Cached(m, sc, n) && Lawful(c)
    ensures AccountKey(c, sec.root, sc, n).Ok? && AccountKey(c, sec.root, sc, n).value.isPrivate
    ensures c.neuter(AccountKey(c, sec.root, sc, n).value).Some?
    ensures WorkingKey(m, m.scopes[sc].accounts[n]) ==
            if m.locked then c.neuter(AccountKey(c, sec.root, sc, n).value)
              else Some(AccountKey(c, sec.root, sc, n).value)
  {
    hide Lawful, MgrOK, AccountKey, OpenKey;
    CachedAccount(c, sec, m, sc, n);
    AccountKeyPrivate(c, sec.root, sc, n);
  }

  /** What the request at step i handed out, and from where. */
  lemma HandedIndices(c: Crypto, sec: Secrets, ws: seq<World>, ops: seq<Op>, i: nat, sc: KeyScope, n: uint32,
                      internal: bool, refs: seq<nat>)
    returns (s: seq<uint32>, locked: bool)
    requires Lawful(c) && IsRun(c, ws, ops) && AllOK(c, sec, ws) && HandedAt(c, ws, ops, i, sc, n, internal, refs)
    ensures s != [] && |refs| == |s| == ops[i].ask.num && (forall j, k :: 0 <= j < k < |s| ==> s[j] < s[k])
    ensures forall k :: 0 <= k < |s| ==> refs[k] < |ws[i + 1].m.heap| && ws[i + 1].m.heap[refs[k]].path.index == s[k]
    ensures AccountKey(c, sec.root, sc, n).Ok? && AccountKey(c, sec.root, sc, n).value.isPrivate
    ensures c.neuter(AccountKey(c, sec.root, sc, n).value).Some?
    ensures var k := AccountKey(c, sec.root, sc, n).value;
            A.Choose(c, if locked then c.neuter(k).value else k, NextIndex(ws[i], sc, n, internal), ops[i].ask) == Ok(s)
    ensures InStep(ws[i + 1], sc, n, internal) && Cached(ws[i + 1].m, sc, n)
    ensures NextIndex(ws[i + 1], sc, n, internal) == s[|s| - 1] as int + 1
    ensures forall k :: 0 <= k < |s| ==> NextIndex(ws[i], sc, n, internal) <= s[k]
  {
    hide Lawful, Step, MgrOK, DbOK, TablesOK, NextAddresses, AddrOK, Queued, LoadAccount, A.Choose, AccountKey, OpenKey,
      WorkingKey;
    var q, rand := ops[i].ask, ops[i].rand;
    s := NextAddressesDelivers(c, sec, ws[i].m, ws[i].db, sc, n, q, rand, ws[i + 1].m, ws[i + 1].db, refs);
    var m1 := LoadAccount(c, ws[i].m, ws[i].db, sc, n, rand).0;
    LoadAccountOK(c, sec, ws[i].m, ws[i].db, sc, n, rand);
    WorkingIs(c, sec, m1, sc, n);
    LoadedIndex(c, ws[i], sc, n, rand, internal);
    IndicesAscend(c, m1, m1.scopes[sc].accounts[n], q);
    locked := m1.locked;
  }

  /** The indices of two successful requests on one branch of an account are in order if and
      only if the second one starts at or past where the first one left the branch. */
  lemma OrderExact(c: Crypto, sec: Secrets, ws: seq<World>, ops: seq<Op>, i: nat, j: nat, sc: KeyScope, n: uint32,
                   internal: bool, earlier: seq<nat>, later: seq<nat>)
    requires Lawful(c) && IsRun(c, ws, ops) && AllOK(c, sec, ws) && i < j
    requires HandedAt(c, ws, ops, i, sc, n, internal, earlier) && HandedAt(c, ws, ops, j, sc, n, internal, later)
    ensures InOrder(ws, i, j, earlier, later) <==>
            NextIndex(ws[j], sc, n, internal) >= NextIndex(ws[i + 1], sc, n, internal)
  {
    hide Lawful, IsRun, WorldOK, HandedAt, AccountKey, A.Choose, NextIndex, InStep;
    var s, locked1 := HandedIndices(c, sec, ws, ops, i, sc, n, internal, earlier);
    var t, locked2 := HandedIndices(c, sec, ws, ops, j, sc, n, internal, later);
    HandedAsks(c, ws, ops, i, sc, n, internal, earlier);
    HandedAsks(c, ws, ops, j, sc, n, internal, later);
    var x := s[|s| - 1];
    if NextIndex(ws[j], sc, n, internal) <= x {
      StartsBelow(c, AccountKey(c, sec.root, sc, n).value, locked1, NextIndex(ws[i], sc, n, internal), ops[i].ask,
                  locked2, NextIndex(ws[j], sc, n, internal), ops[j].ask, x);
      assert t[0] <= x;
      assert ws[i + 1].m.heap[earlier[|s| - 1]].path.index == x && ws[j + 1].m.heap[later[0]].path.index == t[0];
    } else {
      forall a, b | 0 <= a < |earlier| && 0 <= b < |later|
        ensures earlier[a] < |ws[i + 1].m.heap| && later[b] < |ws[j + 1].m.heap|
        ensures ws[i + 1].m.heap[earlier[a]].path.index < ws[j + 1].m.heap[later[b]].path.index
      {
        assert s[a] <= x && t[b] >= NextIndex(ws[j], sc, n, internal);
      }
    }
  }

  lemma HandedAsks(c: Crypto, ws: seq<World>, ops: seq<Op>, i: nat, sc: KeyScope, n: uint32, internal: bool,
                   refs: seq<nat>)
    requires IsRun(c, ws, ops) && HandedAt(c, ws, ops, i, sc, n, internal, refs)
    ensures |ws| == |ops| + 1 && i < |ops| && ops[i].DoNextAddresses? && ops[i].ask.internal == internal
  {
  }

  /** Every index handed out at step i is below every one handed out at step j. */
  ghost predicate InOrder(ws: seq<World>, i: nat, j: nat, earlier: seq<nat>, later: seq<nat>)
    requires i + 1 < |ws| && j + 1 < |ws|
  {
    forall a, b :: 0 <= a < |earlier| && 0 <= b < |later| ==>
      && earlier[a] < |ws[i + 1].m.heap| && later[b] < |ws[j + 1].m.heap|
      && ws[i + 1].m.heap[earlier[a]].path.index < ws[j + 1].m.heap[later[b]].path.index
  }

  /** In every run of the manager two successful requests on one branch of one account hand
      out disjoint, increasing indices, whatever happened between them, unless the account
      was created anew in between and the manager was reopened in between. */
  lemma RunNeverReusesIndex(c: Crypto, sec: Secrets, ws: seq<World>, ops: seq<Op>, i: nat, j: nat, sc: KeyScope,
                            n: uint32, internal: bool, earlier: seq<nat>, later: seq<nat>)
    requires Lawful(c) && IsRun(c, ws, ops) && WorldOK(c, sec, ws[0]) && TrustsAll(c, sec, ops) && i < j
    requires HandedAt(c, ws, ops, i, sc, n, internal, earlier) && HandedAt(c, ws, ops, j, sc, n, internal, later)
    requires NotOverwritten(c, ws, ops, i + 1, j, sc, n) || SameManager(ops, i + 1, j)
    ensures InOrder(ws, i, j, earlier, later)
  {
    hide Lawful, IsRun, WorldOK, HandedAt, AccountKey, InOrder, Overwrites, TrustsAll, A.Choose;
    RunOK(c, sec, ws, ops);
    assert AllOK(c, sec, ws);
    OrderExact(c, sec, ws, ops, i, j, sc, n, internal, earlier, later);
    var s, locked := HandedIndices(c, sec, ws, ops, i, sc, n, internal, earlier);
    HandedAsks(c, ws, ops, j, sc, n, internal, later);
    if SameManager(ops, i + 1, j) {
      RunGrows(c, sec, ws, ops, i + 1, j);
      assert CounterGrows(ws[i + 1].m, ws[j].m, sc, n);
    } else {
      RunInStep(c, sec, ws, ops, i + 1, j, sc, n, internal);
    }
  }
}
