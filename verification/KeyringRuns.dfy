/** Whole runs of the manager over its database: any sequence of Lock, Unlock, account
    loads, derivations, address allocation and caching, PrivKey, account and scope creation.
 */
module KeyringRuns {
  import opened ByteCodec
  import opened Errors
  import opened Primitives
  import opened Snacl
  import opened AccountRow
  import opened AccountTable
  import opened Keyring
  import opened KeyringInvariant
  import opened KeyringLocking
  import opened KeyringAddresses
  import Allocation
  import opened ScopeCreation

  /** The manager, the committed database, the sealed root key, and (history) the last
      passphrase the slow path accepted. */
  datatype World = World(m: Mgr, db: Db, hdPriv: Option<Bytes>, accepted: Bytes)

  type Ask = Allocation.Ask

  datatype Op =
    | DoLock
    | DoUnlock(pass: Bytes, rand: Prng)
    | DoLoad(sc: KeyScope, account: uint32, rand: Prng)
    | DoDerive(sc: KeyScope, path: Path, rand: Prng)
    | DoCache(sc: KeyScope, path: Path, rand: Prng)
    | DoNextAddresses(sc: KeyScope, account: uint32, ask: Ask, rand: Prng)
    | DoEvict(sc: KeyScope, id: Bytes)
    | DoPrivKey(ref: nat)
    | DoNewAccount(sc: KeyScope, q: Request)
    | DoNewScope(sc: KeyScope, schema: Schema, rand: Prng)
    | DoReopen(salt: Bytes)

  /** NewAccount / NewRawAccount on a scope, committed or rolled back. */
  function AfterNewAccount(c: Crypto, w: World, sc: KeyScope, q: Request): World {
    if sc !in w.db || w.m.watchingOnly || w.m.locked then w
    else w.(db := w.db[sc := After(c, Ring(w.m.cryptoPub, w.m.cryptoPriv), w.db[sc], q)])
  }

  /** nextAddresses, committed or rolled back. */
  function AfterNextAddresses(c: Crypto, w: World, sc: KeyScope, n: uint32, q: Ask, rand: Prng): World
    requires sc in w.m.scopes
  {
    var (m, db, _) := NextAddresses(c, w.m, w.db, sc, n, q, rand);
    w.(m := m, db := db)
  }

  /** NewScopedKeyManager: an existing scope's bucket makes it fail. */
  function AfterNewScope(c: Crypto, w: World, sc: KeyScope, schema: Schema, rand: Prng): World {
    var ring := Ring(w.m.cryptoPub, w.m.cryptoPriv);
    match ScopeRoot(c, w.m.watchingOnly, w.m.locked, w.hdPriv, ring)
    case Ok(root) =>
      if sc in w.db then w
      else (match FurtherScope(c, ring, root, sc, rand)
            case Ok(d) =>
              w.(db := w.db[sc := d],
                 m := w.m.(scopes := w.m.scopes[sc := Scoped(schema, map[], map[], [])]))
            case _ => w)
    case _ => w
  }

  /** Close and Open: the manager newManager builds from the stored keys and schemas, locked,
      with blank private keys and nothing cached.  Addresses handed out before belong to the
      closed manager. */
  function Reopened(m: Mgr, salt: Bytes): Mgr {
    Mgr(m.net, m.watchingOnly, true, Zeros(KEY_SIZE), m.params, m.cryptoPub, Zeros(KEY_SIZE), m.cryptoPrivEnc,
        Zeros(KEY_SIZE), m.cryptoScriptEnc, salt, Zeros(64),
        map sc | sc in m.scopes :: Scoped(m.scopes[sc].schema, map[], map[], []), [])
  }

  ghost predicate Step(c: Crypto, w: World, op: Op, w': World) {
    match op
    case DoLock => w' == w.(m := Lock(w.m).0)
    case DoUnlock(pass, rand) =>
      && Structured(w.m)
      && exists r ::
           && Unlocks(c, w.m, pass, rand, w'.m, r)
           && w' == w.(m := w'.m, accepted := if w.m.locked && r.Ok? then pass else w.accepted)
    case DoLoad(sc, n, rand) => w' == if sc in w.m.scopes then w.(m := LoadAccount(c, w.m, w.db, sc, n, rand).0) else w
    case DoDerive(sc, path, rand) =>
      w' == if sc in w.m.scopes then w.(m := DeriveAddress(c, w.m, w.db, sc, path, rand).0) else w
    case DoCache(sc, path, rand) =>
      w' == if sc in w.m.scopes then w.(m := CacheAddress(c, w.m, w.db, sc, path, rand).0) else w
    case DoNextAddresses(sc, n, q, rand) =>
      w' == if sc in w.m.scopes then AfterNextAddresses(c, w, sc, n, q, rand) else w
    case DoEvict(sc, id) => w' == if sc in w.m.scopes then w.(m := EvictAddress(w.m, sc, id)) else w
    case DoPrivKey(ref) => w' == if ref < |w.m.heap| then w.(m := PrivKey(c, w.m, ref).0) else w
    case DoNewAccount(sc, q) => w' == AfterNewAccount(c, w, sc, q)
    case DoNewScope(sc, schema, rand) => w' == AfterNewScope(c, w, sc, schema, rand)
    case DoReopen(salt) => w' == if |salt| == SALT_SIZE then w.(m := Reopened(w.m, salt)) else w
  }

  ghost predicate TablesOK(db: Db) {
    forall sc :: sc in db ==> Consistent(db[sc].table)
  }

  ghost predicate WorldOK(c: Crypto, sec: Secrets, w: World) {
    && MgrOK(c, sec, w.m) && DbOK(c, sec, w.db) && TablesOK(w.db)
    && w.m.scopes.Keys == w.db.Keys
    && w.hdPriv.Some? && OpenKey(c, sec.priv, w.hdPriv.value) == Some(sec.root)
  }

  /** A passphrase that is tried either is refused or derives the true master key. */
  ghost predicate Trusts(c: Crypto, sec: Secrets, op: Op) {
    op.DoUnlock? ==> OnlyMaster(c, sec, op.pass)
  }

  ghost predicate TrustsAll(c: Crypto, sec: Secrets, ops: seq<Op>) {
    forall i :: 0 <= i < |ops| ==> Trusts(c, sec, ops[i])
  }

  lemma PartsOK(c: Crypto, sec: Secrets, w: World)
    requires WorldOK(c, sec, w)
    ensures MgrOK(c, sec, w.m) && DbOK(c, sec, w.db) && TablesOK(w.db)
    ensures !w.m.watchingOnly && w.m.scopes.Keys == w.db.Keys
    ensures w.m.cryptoPub == sec.pub && (!w.m.locked ==> w.m.cryptoPriv == sec.priv)
  {
    hide MgrOK, DbOK, TablesOK, OpenKey;
    RingOf(c, sec, w.m);
    NetOf(c, sec, w.m);
  }

  lemma ScopeAt(c: Crypto, sec: Secrets, w: World, sc: KeyScope)
    requires WorldOK(c, sec, w) && sc in w.db
    ensures ScopeOK(c, sec, sc, w.db[sc])
  {
    hide MgrOK, TablesOK, OpenKey, ScopeOK;
  }

  // ------------------------------------------------------------ single steps

  /** Account creation keeps every row on its BIP 44 path, overwritten rows included. */
  lemma NewAccountScopeOK(c: Crypto, sec: Secrets, sc: KeyScope, d: ScopeDb, q: Request)
    requires Lawful(c) && ScopeOK(c, sec, sc, d) && Consistent(d.table)
    ensures ScopeOK(c, sec, sc, After(c, Ring(sec.pub, sec.priv), d, q))
    ensures Consistent(After(c, Ring(sec.pub, sec.priv), d, q).table)
  {
    hide Lawful, Serve, AccountRowFor, Storable, Number, Name, OpenKey, RowHolds, DeriveAccountKey, DeriveCoinTypeKey,
      Consistent;
    var ring := Ring(sec.pub, sec.priv);
    StepConsistent(c, ring, d, q);
    if Serve(c, ring, d, q).Ok? {
      ServedTable(c, ring, d, q);
      NewRowHolds(c, ring, d, Number(d.table, q), Name(q), q.rand);
    }
  }

  /** On a sound scope NewAccount and NewRawAccount succeed exactly when the name is allowed,
      new and short enough for a bucket key, the account's key derives and neuters, and two
      nonces can be read. */
  lemma NewAccountExact(c: Crypto, sec: Secrets, sc: KeyScope, d: ScopeDb, q: Request)
    requires Lawful(c) && ScopeOK(c, sec, sc, d)
    ensures Serve(c, Ring(sec.pub, sec.priv), d, q).Ok? <==>
            && Name(q) != [] && Name(q) != IMPORTED_NAME && Name(q) !in d.table.ids && |Name(q)| <= 32764
            && AccountKey(c, sec.root, sc, Number(d.table, q)).Ok?
            && c.neuter(AccountKey(c, sec.root, sc, Number(d.table, q)).value).Some?
            && Nonce(q.rand, 0).Some? && Nonce(q.rand, 1).Some?
  {
    hide Lawful, Number, Name, DeriveAccountKey, DeriveCoinTypeKey, RowOK, Storable, StoredRow, Nonce, SealRow, Decrypt;
    var ring, n := Ring(sec.pub, sec.priv), Number(d.table, q);
    var k := DeriveAccountKey(c, DeriveCoinTypeKey(c, sec.root, sc).value, n);
    if k.Ok? {
      SealRowExact(c, ring, k.value, Name(q), q.rand);
    }
  }

  lemma SealRowExact(c: Crypto, ring: Ring, key: ExtKey, name: Bytes, rand: Prng)
    requires Lawful(c)
    ensures SealRow(c, ring, key, name, rand, 0).Ok? <==>
            c.neuter(key).Some? && Nonce(rand, 0).Some? && Nonce(rand, 1).Some?
    ensures SealRow(c, ring, key, name, rand, 0).Ok? ==>
            var row := SealRow(c, ring, key, name, rand, 0).value;
            (Storable(row) <==> |name| <= 32764) && (Storable(row) ==> !StoredRow(row).Fault?)
  {
    hide Lawful, Storable, StoredRow, Nonce;
    if SealRow(c, ring, key, name, rand, 0).Ok? {
      StorableExact(c, ring, key, name, rand, 0);
      if |name| <= 32764 {
        StorableRowEncodes(SealRow(c, ring, key, name, rand, 0).value);
      }
    }
  }

  lemma NewAccountOK(c: Crypto, sec: Secrets, w: World, sc: KeyScope, q: Request)
    requires Lawful(c) && WorldOK(c, sec, w)
    ensures WorldOK(c, sec, AfterNewAccount(c, w, sc, q))
  {
    hide Lawful, MgrOK, ScopeOK, Consistent, OpenKey, After;
    assert w.m.cryptoPub == sec.pub && (!w.m.locked ==> w.m.cryptoPriv == sec.priv) by { RingOf(c, sec, w.m); }
    if sc in w.db && !w.m.watchingOnly && !w.m.locked {
      NewAccountScopeOK(c, sec, sc, w.db[sc], q);
    }
  }

  lemma RingOf(c: Crypto, sec: Secrets, m: Mgr)
    requires MgrOK(c, sec, m)
    ensures m.cryptoPub == sec.pub && (!m.locked ==> m.cryptoPriv == sec.priv)
  {
    hide AccountsOK, HeapOK, Structured;
  }

  lemma NewScopeOK(c: Crypto, sec: Secrets, w: World, sc: KeyScope, schema: Schema, rand: Prng)
    requires Lawful(c) && WorldOK(c, sec, w)
    ensures WorldOK(c, sec, AfterNewScope(c, w, sc, schema, rand))
  {
    hide Lawful, MgrOK, ScopeOK, Consistent, OpenKey, CreateScope;
    assert w.m.cryptoPub == sec.pub && (!w.m.locked ==> w.m.cryptoPriv == sec.priv) by { RingOf(c, sec, w.m); }
    assert !w.m.watchingOnly by { NetOf(c, sec, w.m); }
    if !w.m.watchingOnly && !w.m.locked && sc !in w.db &&
       CreateScope(c, Ring(sec.pub, sec.priv), sec.root, sc, None, rand, 0).Ok? {
      CreateScopeOK(c, sec, sc, None, rand, 0);
      EmptyScopeOK(c, sec, w.m, sc, schema);
    }
  }

  lemma EmptyScopeOK(c: Crypto, sec: Secrets, m: Mgr, sc: KeyScope, schema: Schema)
    requires MgrOK(c, sec, m) && sc !in m.scopes
    ensures MgrOK(c, sec, m.(scopes := m.scopes[sc := Scoped(schema, map[], map[], [])]))
  {
    hide Base, Structured, Mode, AccountsOK, HeapOK, ShapesOK;
    var w := m.(scopes := m.scopes[sc := Scoped(schema, map[], map[], [])]);
    SameBase(c, sec, m, w);
    EmptyScopeStructured(m, sc, schema);
    EmptyScopeKeys(c, sec, m, sc, schema);
  }

  lemma EmptyScopeStructured(m: Mgr, sc: KeyScope, schema: Schema)
    requires Structured(m) && sc !in m.scopes
    ensures Structured(m.(scopes := m.scopes[sc := Scoped(schema, map[], map[], [])]))
  {
    var w := m.(scopes := m.scopes[sc := Scoped(schema, map[], map[], [])]);
    forall t, i | t in w.scopes && 0 <= i < |w.scopes[t].queue| ensures EntryCached(w, t, w.scopes[t].queue[i]) {
      assert EntryCached(m, t, m.scopes[t].queue[i]);
    }
  }

  lemma EmptyScopeKeys(c: Crypto, sec: Secrets, m: Mgr, sc: KeyScope, schema: Schema)
    requires Mode(c, sec, m) && AccountsOK(c, sec, m) && HeapOK(c, sec, m) && ShapesOK(c, m) && sc !in m.scopes
    ensures var w := m.(scopes := m.scopes[sc := Scoped(schema, map[], map[], [])]);
            Mode(c, sec, w) && AccountsOK(c, sec, w) && HeapOK(c, sec, w) && ShapesOK(c, w)
  {
    hide AddrOK, AccountOK, OpenKey;
    var w := m.(scopes := m.scopes[sc := Scoped(schema, map[], map[], [])]);
    forall i | 0 <= i < |w.heap| ensures (w.heap[i].privEnc != [] || Queued(w, i)) && TypeOK(w, w.heap[i]) {
      HeapAt(c, sec, m, i);
      assert TypeOK(m, m.heap[i]);
      if Queued(m, i) { KeepsQueued(m, w, i); }
    }
    forall t, id | t in w.scopes && id in w.scopes[t].addrs ensures CachedAs(c, w, t, id, w.scopes[t].addrs[id]) {
      assert CachedAs(c, m, t, id, m.scopes[t].addrs[id]);
    }
  }

  lemma LockStepOK(c: Crypto, sec: Secrets, m: Mgr)
    requires MgrOK(c, sec, m)
    ensures MgrOK(c, sec, Lock(m).0) && Lock(m).0.scopes.Keys == m.scopes.Keys
  {
    hide MgrOK, LockOf;
    CoreOf(c, sec, m);
    LockOK(c, sec, m);
    LockFacts(m);
  }

  lemma UnlockScopes(c: Crypto, sec: Secrets, pre: Mgr, pass: Bytes, rand: Prng, post: Mgr, r: Outcome<()>)
    requires Structured(pre) && Unlocks(c, pre, pass, rand, post, r)
    ensures post.scopes.Keys == pre.scopes.Keys
  {
    hide Structured, LockOf, AccountsOpen, Obstacle, HeapFilled, PoppedFilled, SameAccounts, Decrypt, DeriveKeySpec;
    forall m: Mgr ensures LockOf(m).scopes.Keys == m.scopes.Keys { LockFacts(m); }
  }

  lemma NextAddressesStepOK(c: Crypto, sec: Secrets, w: World, sc: KeyScope, n: uint32, q: Ask, rand: Prng)
    requires Lawful(c) && WorldOK(c, sec, w) && sc in w.m.scopes
    ensures WorldOK(c, sec, AfterNextAddresses(c, w, sc, n, q, rand))
  {
    hide Lawful, MgrOK, DbOK, Consistent, NextAddresses;
    NextAddressesOK(c, sec, w.m, w.db, sc, n, q, rand);
  }

  /** Every single operation keeps the invariant. */
  lemma StepOK(c: Crypto, sec: Secrets, w: World, op: Op, w': World)
    requires Lawful(c) && WorldOK(c, sec, w) && Step(c, w, op, w') && Trusts(c, sec, op)
    ensures WorldOK(c, sec, w')
  {
    hide Lawful, MgrOK, DbOK, TablesOK, OpenKey, Lock, Unlocks, LoadAccount, DeriveAddress, CacheAddress, EvictAddress,
      PrivKey, AfterNewAccount, AfterNewScope, AfterNextAddresses, Reopened, Structured;
    match op
    case DoLock => LockStepOK(c, sec, w.m);
    case DoUnlock(pass, rand) =>
      var r :| Unlocks(c, w.m, pass, rand, w'.m, r);
      UnlockOK(c, sec, w.m, pass, rand, w'.m, r);
      UnlockScopes(c, sec, w.m, pass, rand, w'.m, r);
    case DoLoad(sc, n, rand) => if sc in w.m.scopes { LoadAccountOK(c, sec, w.m, w.db, sc, n, rand); }
    case DoDerive(sc, path, rand) => if sc in w.m.scopes { DeriveAddressOK(c, sec, w.m, w.db, sc, path, rand); }
    case DoCache(sc, path, rand) => if sc in w.m.scopes { CacheOK(c, sec, w.m, w.db, sc, path, rand); }
    case DoNextAddresses(sc, n, q, rand) =>
      if sc in w.m.scopes { NextAddressesStepOK(c, sec, w, sc, n, q, rand); }
    case DoEvict(sc, id) =>
      if sc in w.m.scopes { EvictOK(c, sec, w.m, sc, id); EvictKeys(w.m, sc, id); }
    case DoPrivKey(ref) =>
      if ref < |w.m.heap| { PrivKeyOK(c, sec, w.m, ref); PrivKeyScopes(c, w.m, ref); }
    case DoNewAccount(sc, q) => NewAccountOK(c, sec, w, sc, q);
    case DoNewScope(sc, schema, rand) => NewScopeOK(c, sec, w, sc, schema, rand);
    case DoReopen(salt) => if |salt| == SALT_SIZE { ReopenedOK(c, sec, w.m, salt); }
  }

  /** A reopened manager is sound: locked and with nothing cached. */
  lemma ReopenedOK(c: Crypto, sec: Secrets, m: Mgr, salt: Bytes)
    requires MgrOK(c, sec, m) && |salt| == SALT_SIZE
    ensures MgrOK(c, sec, Reopened(m, salt)) && Reopened(m, salt).scopes.Keys == m.scopes.Keys
  {
    hide Structured, Mode, AccountsOK, HeapOK, Decrypt;
    var w := Reopened(m, salt);
    assert Base(c, sec, w);
    BlankOK(c, sec, m, salt);
  }

  lemma BlankOK(c: Crypto, sec: Secrets, m: Mgr, salt: Bytes)
    requires |salt| == SALT_SIZE
    ensures var w := Reopened(m, salt); Structured(w) && Mode(c, sec, w) && AccountsOK(c, sec, w) && HeapOK(c, sec, w)
  {
    hide AccountOK, AddrOK, EntryCached;
  }

  lemma EvictKeys(m: Mgr, sc: KeyScope, id: Bytes)
    requires sc in m.scopes
    ensures EvictAddress(m, sc, id).scopes.Keys == m.scopes.Keys
  {
  }

  lemma PrivKeyScopes(c: Crypto, m: Mgr, ref: nat)
    requires ref < |m.heap|
    ensures PrivKey(c, m, ref).0.scopes == m.scopes
  {
  }

  // ------------------------------------------------------------------- runs

  ghost predicate IsRun(c: Crypto, ws: seq<World>, ops: seq<Op>) {
    && |ws| == |ops| + 1
    && forall i :: 0 <= i < |ops| ==> Step(c, ws[i], ops[i], ws[i + 1])
  }

  /** Every state of every run satisfies the invariant: locked means no account key in
      memory; unlocked means every cached account key is the decryption of its
      ciphertext; queued addresses have their account cached; every address is queued or
      holds its sealed key; every row is on its path; every table is consistent. */
  lemma {:induction false} RunOK(c: Crypto, sec: Secrets, ws: seq<World>, ops: seq<Op>)
    requires Lawful(c) && IsRun(c, ws, ops) && WorldOK(c, sec, ws[0]) && TrustsAll(c, sec, ops)
    ensures forall i :: 0 <= i < |ws| ==> WorldOK(c, sec, ws[i])
    decreases |ops|
  {
    hide Lawful, WorldOK, Step;
    if |ops| > 0 {
      var n := |ops| - 1;
      assert IsRun(c, ws[..n + 1], ops[..n]) by {
        forall i | 0 <= i < n ensures Step(c, ws[..n + 1][i], ops[..n][i], ws[..n + 1][i + 1]) {
          assert Step(c, ws[i], ops[i], ws[i + 1]);
        }
      }
      RunOK(c, sec, ws[..n + 1], ops[..n]);
      assert WorldOK(c, sec, ws[..n + 1][n]);
      StepOK(c, sec, ws[n], ops[n], ws[n + 1]);
      forall i | 0 <= i < |ws| ensures WorldOK(c, sec, ws[i]) {
        if i <= n { assert ws[i] == ws[..n + 1][i]; }
      }
    }
  }

  // ----------------------------------------------------- addresses are forever

  /** An address object keeps its scope, path, public key and type, and never loses its sealed
      private key. */
  ghost predicate Persists(older: seq<Address>, newer: seq<Address>) {
    && |older| <= |newer|
    && forall i :: 0 <= i < |older| ==> SameAddress(older[i], newer[i])
  }

  predicate SameAddress(a: Address, b: Address) {
    && SameIdentity(a, b)
    && (a.privEnc != [] ==> b.privEnc != [])
  }

  lemma LockPersists(m: Mgr)
    ensures Persists(m.heap, LockOf(m).heap)
  {
    hide InCache, LockedScopes;
  }

  lemma DrainPersists(c: Crypto, ck: Bytes, pre: Mgr, post: Mgr)
    requires Structured(pre) && Drained(c, ck, pre, post)
    ensures Persists(pre.heap, post.heap)
  {
    hide Structured, SameAccounts, PoppedFilled, DeriveKey, OpenKey, Decrypt;
  }

  lemma PersistsTrans(a: seq<Address>, b: seq<Address>, d: seq<Address>)
    requires Persists(a, b) && Persists(b, d)
    ensures Persists(a, d)
  {
    forall i | 0 <= i < |a| ensures SameAddress(a[i], d[i]) {
      assert SameAddress(a[i], b[i]) && SameAddress(b[i], d[i]);
    }
  }

  lemma UnlockPersists(c: Crypto, pre: Mgr, pass: Bytes, rand: Prng, post: Mgr, r: Outcome<()>)
    requires Structured(pre) && Unlocks(c, pre, pass, rand, post, r)
    ensures Persists(pre.heap, post.heap)
  {
    hide Structured, LockOf, AccountsOpen, Obstacle, Drained, Decrypt, DeriveKeySpec, Persists;
    PersistsRefl(pre.heap);
    if !pre.watchingOnly && !pre.locked {
      LockPersists(pre.(salt := WipedSalt(pre.salt, pass)));
    } else if !pre.watchingOnly {
      LockPersists(pre);
      var (k, e) := DeriveKeySpec(c, pre.params, pass);
      if e == None && Decrypt(c, k.value, pre.cryptoPrivEnc).Some? {
        var ck := CopyInto(pre.cryptoPriv, Decrypt(c, k.value, pre.cryptoPrivEnc).value);
        if r.Ok? {
          DrainPersists(c, ck, pre, post);
        } else {
          var scopes, heap :| (var mid := pre.(scopes := scopes, heap := heap);
                               Drained(c, ck, pre, mid) && post == LockOf(mid));
          var mid := pre.(scopes := scopes, heap := heap);
          DrainPersists(c, ck, pre, mid);
          LockPersists(mid);
          PersistsTrans(pre.heap, mid.heap, post.heap);
        }
      }
    }
  }

  lemma PersistsRefl(h: seq<Address>)
    ensures Persists(h, h)
  {
  }

  lemma ManagedPersists(c: Crypto, m: Mgr, sc: KeyScope, key: ExtKey, path: Path, acctPriv: Option<ExtKey>, rand: Prng,
                        i: nat)
    requires sc in m.scopes
    ensures Persists(m.heap, KeyToManaged(c, m, sc, key, path, acctPriv, rand, i).0.heap)
  {
    hide NewAddress;
  }

  lemma LoadPersists(c: Crypto, m: Mgr, db: Db, sc: KeyScope, n: uint32, rand: Prng)
    requires sc in m.scopes
    ensures Persists(m.heap, LoadAccount(c, m, db, sc, n, rand).0.heap)
  {
    hide Persists, KeyToManaged, OpenKey, DeriveKey, AccountFrom;
    PersistsRefl(m.heap);
    if n !in m.scopes[sc].accounts && sc in db && n in db[sc].table.rows {
      var row := db[sc].table.rows[n];
      if OpenKey(c, m.cryptoPub, row.pubEnc).Some? {
        var a := AccountFrom(c, m, row, OpenKey(c, m.cryptoPub, row.pubEnc).value);
        if DeriveKey(c, WorkingKey(m, a), EXTERNAL, LastIndex(row)).Ok? {
          var key := DeriveKey(c, WorkingKey(m, a), EXTERNAL, LastIndex(row)).value;
          ManagedPersists(c, m, sc, key, Path(n, EXTERNAL, LastIndex(row)), a.keyPriv, rand, 0);
        }
      }
    }
  }

  lemma DerivePersists(c: Crypto, m: Mgr, db: Db, sc: KeyScope, path: Path, rand: Prng)
    requires sc in m.scopes
    ensures Persists(m.heap, DeriveAddress(c, m, db, sc, path, rand).0.heap)
  {
    hide Persists, KeyToManaged, LoadAccount, DeriveKey;
    LoadPersists(c, m, db, sc, path.account, rand);
    var (m1, loaded) := LoadAccount(c, m, db, sc, path.account, rand);
    if loaded.Ok? {
      var a := m1.scopes[sc].accounts[path.account];
      if DeriveKey(c, WorkingKey(m1, a), path.branch, path.index).Ok? {
        var key := DeriveKey(c, WorkingKey(m1, a), path.branch, path.index).value;
        ManagedPersists(c, m1, sc, key, path, a.keyPriv, rand, 1);
        PersistsTrans(m.heap, m1.heap, DeriveAddress(c, m, db, sc, path, rand).0.heap);
      }
    }
  }

  lemma CachePersists(c: Crypto, m: Mgr, db: Db, sc: KeyScope, path: Path, rand: Prng)
    requires sc in m.scopes
    ensures Persists(m.heap, CacheAddress(c, m, db, sc, path, rand).0.heap)
  {
    hide DeriveAddress, Persists;
    DerivePersists(c, m, db, sc, path, rand);
  }

  lemma ReadBackPersists(c: Crypto, m: Mgr, db: Db, sc: KeyScope, a: Address, rand: Prng)
    requires sc in m.scopes
    ensures Persists(m.heap, ReadBack(c, m, db, sc, a, rand).0.heap)
  {
    hide CacheAddress, Persists, Printed;
    CachePersists(c, m, db, sc, a.path, rand);
  }

  lemma {:induction false} CacheAllPersists(c: Crypto, m: Mgr, db: Db, sc: KeyScope, made: seq<Address>, rand: Prng,
                                            i: nat)
    requires sc in m.scopes
    ensures Persists(m.heap, CacheAll(c, m, db, sc, made, rand, i).0.heap)
    decreases |made|
  {
    hide ReadBack, Persists;
    if made == [] {
      PersistsRefl(m.heap);
    } else {
      var m1 := ReadBack(c, m, db, sc, made[0], Later(rand, i)).0;
      ReadBackPersists(c, m, db, sc, made[0], Later(rand, i));
      CacheAllPersists(c, m1, db, sc, made[1..], rand, i + 2);
      PersistsTrans(m.heap, m1.heap, CacheAll(c, m1, db, sc, made[1..], rand, i + 2).0.heap);
    }
  }

  lemma {:induction false} CommitAllPersists(c: Crypto, m: Mgr, sc: KeyScope, made: seq<Address>)
    requires sc in m.scopes
    ensures Persists(m.heap, CommitAll(c, m, sc, made).heap)
    decreases |made|
  {
    hide Persists;
    if made == [] {
      PersistsRefl(m.heap);
    } else {
      assert Persists(m.heap, m.heap + [made[0]]) by { AppendPersists(m.heap, made[0]); }
      CommitAllPersists(c, CommitOne(c, m, sc, made[0]), sc, made[1..]);
      PersistsTrans(m.heap, m.heap + [made[0]], CommitAll(c, m, sc, made).heap);
    }
  }

  lemma AppendPersists(h: seq<Address>, a: Address)
    ensures Persists(h, h + [a])
  {
  }

  lemma NextAddressesPersists(c: Crypto, m: Mgr, db: Db, sc: KeyScope, n: uint32, q: Ask, rand: Prng)
    requires sc in m.scopes
    ensures Persists(m.heap, NextAddresses(c, m, db, sc, n, q, rand).0.heap)
  {
    hide Persists, LoadAccount, Indices, BuildAll, StoreBatch;
    LoadPersists(c, m, db, sc, n, rand);
    var (m1, loaded) := LoadAccount(c, m, db, sc, n, rand);
    if loaded.Ok? && Indices(c, m1, m1.scopes[sc].accounts[n], q).Ok? {
      var s := Indices(c, m1, m1.scopes[sc].accounts[n], q).value;
      var made := BuildAll(c, m1, sc, m1.scopes[sc].accounts[n], n, Allocation.Branch(q), s, rand, 1);
      if made.Ok? {
        StoreBatchPersists(c, m1, db, sc, n, q, s, made.value, rand);
        PersistsTrans(m.heap, m1.heap, StoreBatch(c, m1, db, sc, n, q, s, made.value, rand).0.heap);
      }
    }
  }

  lemma StoreBatchPersists(c: Crypto, m: Mgr, db: Db, sc: KeyScope, n: uint32, q: Ask, s: seq<uint32>,
                           made: seq<Address>, rand: Prng)
    requires sc in m.scopes
    ensures Persists(m.heap, StoreBatch(c, m, db, sc, n, q, s, made, rand).0.heap)
  {
    hide Persists, CacheAll, CommitAll, MoveRow, WithAccount;
    PersistsRefl(m.heap);
    CacheAllPersists(c, m, db, sc, made, rand, 1 + |made|);
    var m2 := CacheAll(c, m, db, sc, made, rand, 1 + |made|).0;
    if s != [] && n in m2.scopes[sc].accounts {
      var last := if made == [] then 0 else |m2.heap| + (|made| - 1);
      var counted := WithAccount(m2, sc, n, Moved(m2.scopes[sc].accounts[n], q, (s[|s| - 1] + 1) % W32, last));
      WithAccountKeys(m2, sc, n, Moved(m2.scopes[sc].accounts[n], q, (s[|s| - 1] + 1) % W32, last));
      CommitAllPersists(c, counted, sc, made);
      PersistsTrans(m.heap, m2.heap, CommitAll(c, counted, sc, made).heap);
    }
  }

  lemma PrivKeyPersists(c: Crypto, m: Mgr, ref: nat)
    requires ref < |m.heap|
    ensures Persists(m.heap, PrivKey(c, m, ref).0.heap)
  {
    hide Decrypt;
  }

  lemma StepPersists(c: Crypto, w: World, op: Op, w': World)
    requires Step(c, w, op, w') && !op.DoReopen?
    ensures Persists(w.m.heap, w'.m.heap)
  {
    hide Persists, LockOf, Unlocks, LoadAccount, DeriveAddress, CacheAddress, NextAddresses, PrivKey, OpenKey,
      Structured, CreateScope, After;
    PersistsRefl(w.m.heap);
    match op
    case DoLock => LockPersists(w.m);
    case DoUnlock(pass, rand) =>
      var r :| Unlocks(c, w.m, pass, rand, w'.m, r);
      UnlockPersists(c, w.m, pass, rand, w'.m, r);
    case DoLoad(sc, n, rand) => if sc in w.m.scopes { LoadPersists(c, w.m, w.db, sc, n, rand); }
    case DoDerive(sc, path, rand) => if sc in w.m.scopes { DerivePersists(c, w.m, w.db, sc, path, rand); }
    case DoCache(sc, path, rand) => if sc in w.m.scopes { CachePersists(c, w.m, w.db, sc, path, rand); }
    case DoNextAddresses(sc, n, q, rand) => if sc in w.m.scopes { NextAddressesPersists(c, w.m, w.db, sc, n, q, rand); }
    case DoEvict(sc, id) =>
    case DoPrivKey(ref) => if ref < |w.m.heap| { PrivKeyPersists(c, w.m, ref); }
    case DoNewAccount(sc, q) =>
    case DoNewScope(sc, schema, rand) =>
  }

  /** The manager is not closed and reopened between two points of a run. */
  predicate SameManager(ops: seq<Op>, i: nat, j: nat) {
    forall k :: i <= k < j && k < |ops| ==> !ops[k].DoReopen?
  }

  lemma {:induction false} RunPersists(c: Crypto, ws: seq<World>, ops: seq<Op>, i: nat, j: nat)
    requires IsRun(c, ws, ops) && i <= j < |ws| && SameManager(ops, i, j)
    ensures Persists(ws[i].m.heap, ws[j].m.heap)
    decreases j
  {
    hide Step, Persists;
    if i == j {
      PersistsRefl(ws[i].m.heap);
    } else {
      RunPersists(c, ws, ops, i, j - 1);
      StepPersists(c, ws[j - 1], ops[j - 1], ws[j]);
      PersistsTrans(ws[i].m.heap, ws[j - 1].m.heap, ws[j].m.heap);
    }
  }

  /** No derivation is ever lost: an address that was queued at some point of a run is,
      at every later point with the same manager, the same address, sound, and still queued or in possession of
      its sealed private key, across failed and successful unlocks alike. */
  lemma QueuedNeverLost(c: Crypto, sec: Secrets, ws: seq<World>, ops: seq<Op>, i: nat, j: nat, ref: nat)
    requires Lawful(c) && IsRun(c, ws, ops) && WorldOK(c, sec, ws[0]) && TrustsAll(c, sec, ops)
    requires i <= j < |ws| && SameManager(ops, i, j) && Queued(ws[i].m, ref)
    ensures ref < |ws[j].m.heap| && SameAddress(ws[i].m.heap[ref], ws[j].m.heap[ref])
    ensures AddrOK(c, sec, ws[j].m.heap[ref])
    ensures Queued(ws[j].m, ref) || Decrypt(c, sec.priv, ws[j].m.heap[ref].privEnc).Some?
  {
    hide Lawful, IsRun, WorldOK, Decrypt, AddressKey;
    RunOK(c, sec, ws, ops);
    RunPersists(c, ws, ops, i, j);
    assert HeapOK(c, sec, ws[j].m) by { HeapOf(c, sec, ws[j]); }
    HeapAt(c, sec, ws[j].m, ref);
  }

  lemma HeapOf(c: Crypto, sec: Secrets, w: World)
    requires WorldOK(c, sec, w)
    ensures HeapOK(c, sec, w.m)
  {
    hide Base, Structured, Mode, AccountsOK, HeapOK;
  }
}
