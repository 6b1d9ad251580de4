/** What every run of the manager keeps.  `Secrets` names the true keys: the master key
    the stored digest belongs to, the crypto keys, the root key everything is derived
    from, and what is stored of them: the master key's parameters and the sealed crypto keys.
 */
module KeyringInvariant {
  import opened ByteCodec
  import opened Errors
  import opened Primitives
  import opened Snacl
  import opened AccountRow
  import opened AccountTable
  import opened Keyring

  datatype Secrets = Secrets(
    master: Bytes, priv: Bytes, pub: Bytes, script: Bytes, root: ExtKey,
    params: Params, privEnc: Bytes, scriptEnc: Bytes)

  /** BIP 44's path levels: purpose', coin_type', account' below the root ... */
  function AccountKey(c: Crypto, root: ExtKey, sc: KeyScope, n: uint32): Outcome<ExtKey> {
    match DeriveCoinTypeKey(c, root, sc)
    case Ok(coin) => DeriveAccountKey(c, coin, n)
    case other => other
  }

  /** ... and change / address_index below the account. */
  function AddressKey(c: Crypto, root: ExtKey, sc: KeyScope, path: Path): Outcome<ExtKey> {
    match AccountKey(c, root, sc, path.account)
    case Ok(k) => DeriveKey(c, Some(k), path.branch, path.index)
    case other => other
  }

  // ------------------------------------------------------------- the invariant

  /** A scope's coin-type keys and rows open to the keys of their paths, the public one to
      the neutered key. */
  ghost predicate ScopeOK(c: Crypto, sec: Secrets, sc: KeyScope, d: ScopeDb) {
    && d.coinPriv.Some? && d.coinPub.Some?
    && DeriveCoinTypeKey(c, sec.root, sc).Ok?
    && OpenKey(c, sec.pub, d.coinPub.value).Some?
    && OpenKey(c, sec.pub, d.coinPub.value) == c.neuter(DeriveCoinTypeKey(c, sec.root, sc).value)
    && OpenKey(c, sec.priv, d.coinPriv.value) == Some(DeriveCoinTypeKey(c, sec.root, sc).value)
    && (forall n :: n in d.table.rows && n != IMPORTED ==> RowOK(c, sec, sc, n, d.table.rows[n]))
    && (IMPORTED in d.table.rows ==> d.table.rows[IMPORTED].pubEnc == [])
  }

  ghost predicate RowOK(c: Crypto, sec: Secrets, sc: KeyScope, n: uint32, row: AcctRow) {
    && AccountKey(c, sec.root, sc, n).Ok?
    && RowHolds(c, Ring(sec.pub, sec.priv), row, AccountKey(c, sec.root, sc, n).value)
  }

  ghost predicate DbOK(c: Crypto, sec: Secrets, db: Db) {
    forall sc :: sc in db ==> ScopeOK(c, sec, sc, db[sc])
  }

  ghost predicate AccountOK(c: Crypto, sec: Secrets, sc: KeyScope, n: uint32, a: Account) {
    && AccountKey(c, sec.root, sc, n).Ok?
    && var k := AccountKey(c, sec.root, sc, n).value;
    && OpenKey(c, sec.priv, a.keyEnc) == Some(k)
    && c.neuter(k) == Some(a.keyPub)
  }

  /** The address carries the public key of its path; whatever private material it holds
      is the private key of that path. */
  ghost predicate AddrOK(c: Crypto, sec: Secrets, a: Address) {
    && AddressKey(c, sec.root, a.scope, a.path).Ok?
    && var k := AddressKey(c, sec.root, a.scope, a.path).value;
    && a.pubKey == c.point(k)
    && (a.privEnc != [] ==> Decrypt(c, sec.priv, a.privEnc) == Some(c.scalar(k)))
    && (a.privCT != [] ==> a.privEnc != [] && a.privCT == c.scalar(k))
  }

  ghost predicate Queued(m: Mgr, ref: nat) {
    && ref < |m.heap| && m.heap[ref].scope in m.scopes
    && exists j :: 0 <= j < |m.scopes[m.heap[ref].scope].queue| && m.scopes[m.heap[ref].scope].queue[j].addr == ref
  }

  /** The keys that never change, and the script key, which is never filled in. */
  ghost predicate Base(c: Crypto, sec: Secrets, m: Mgr) {
    && !m.watchingOnly && sec.root.isPrivate
    && m.cryptoPub == sec.pub && |sec.priv| == KEY_SIZE && |m.cryptoPriv| == KEY_SIZE
    && m.params == sec.params && m.cryptoPrivEnc == sec.privEnc && Decrypt(c, sec.master, sec.privEnc) == Some(sec.priv)
    && m.cryptoScript == Zeros(KEY_SIZE) && m.cryptoScriptEnc == sec.scriptEnc
    && Decrypt(c, sec.master, sec.scriptEnc) == Some(sec.script)
  }

  /** What an unlock assumes of the passphrase it is given: if the stored digest accepts it,
      it derives the true master key. */
  ghost predicate OnlyMaster(c: Crypto, sec: Secrets, pass: Bytes) {
    Accepts(c, sec.params, pass) ==> DeriveKeySpec(c, sec.params, pass).0 == Some(sec.master)
  }

  /** Both address types of a scope have an address. */
  predicate KeyTyped(s: Schema) { KeyType(s.external) && KeyType(s.internal) }

  /** No address in a scope's cache holds a clear private key. */
  ghost predicate CachesClear(m: Mgr) {
    forall sc, id :: sc in m.scopes && id in m.scopes[sc].addrs && m.scopes[sc].addrs[id] < |m.heap| ==>
      m.heap[m.scopes[sc].addrs[id]].privCT == []
  }

  /** Locked: no private key in memory but those of addresses outside the caches.  Unlocked:
      the crypto key and every account key are in clear and nothing is left to derive. */
  ghost predicate Mode(c: Crypto, sec: Secrets, m: Mgr) {
    if m.locked then
      && m.master == Zeros(KEY_SIZE) && m.cryptoPriv == Zeros(KEY_SIZE) && m.hashed == Zeros(64)
      && (forall sc, n :: sc in m.scopes && n in m.scopes[sc].accounts ==> m.scopes[sc].accounts[n].keyPriv == None)
      && CachesClear(m)
    else
      && m.cryptoPriv == sec.priv
      && AccountsOpen(c, sec.priv, m.scopes)
      && forall sc :: sc in m.scopes ==> m.scopes[sc].queue == []
  }

  ghost predicate AccountsOK(c: Crypto, sec: Secrets, m: Mgr) {
    forall sc, n :: sc in m.scopes && n in m.scopes[sc].accounts ==> AccountOK(c, sec, sc, n, m.scopes[sc].accounts[n])
  }

  /** Every address ever created is sound, and is queued or holds its sealed private key. */
  ghost predicate HeapOK(c: Crypto, sec: Secrets, m: Mgr) {
    forall i :: 0 <= i < |m.heap| ==> AddrOK(c, sec, m.heap[i]) && (m.heap[i].privEnc != [] || Queued(m, i))
  }

  /** An address has the type its scope's schema gives its branch, and is internal exactly on
      branch 1. */
  predicate TypeOK(m: Mgr, a: Address) {
    && a.scope in m.scopes
    && a.kind == (if a.path.branch == 1 then m.scopes[a.scope].schema.internal else m.scopes[a.scope].schema.external)
    && (a.internal <==> a.path.branch == 1)
  }

  /** A cache entry is an address of the scope, under its own script address. */
  predicate CachedAs(c: Crypto, m: Mgr, sc: KeyScope, id: Bytes, ref: nat) {
    ref < |m.heap| && m.heap[ref].scope == sc && c.script(m.heap[ref].pubKey, m.heap[ref].kind) == id
  }

  ghost predicate TypesOK(m: Mgr) { forall i :: 0 <= i < |m.heap| ==> TypeOK(m, m.heap[i]) }

  ghost predicate CachesOK(c: Crypto, m: Mgr) {
    forall sc, id :: sc in m.scopes && id in m.scopes[sc].addrs ==> CachedAs(c, m, sc, id, m.scopes[sc].addrs[id])
  }

  ghost predicate ShapesOK(c: Crypto, m: Mgr) { TypesOK(m) && CachesOK(c, m) }

  ghost predicate MgrOK(c: Crypto, sec: Secrets, m: Mgr) {
    Base(c, sec, m) && Structured(m) && Mode(c, sec, m) && AccountsOK(c, sec, m) && HeapOK(c, sec, m) && ShapesOK(c, m)
  }

  // --------------------------------------------------------------- derivations

  lemma AccountKeyPrivate(c: Crypto, root: ExtKey, sc: KeyScope, n: uint32)
    requires Lawful(c) && root.isPrivate && AccountKey(c, root, sc, n).Ok?
    ensures AccountKey(c, root, sc, n).value.isPrivate
  {
    hide HashLaws, BoxLaws, KeyLaws;
  }

  lemma ChildPrivate(c: Crypto, k: ExtKey, branch: uint32, index: uint32)
    requires Lawful(c) && k.isPrivate && DeriveKey(c, Some(k), branch, index).Ok?
    ensures DeriveKey(c, Some(k), branch, index).value.isPrivate
  {
    hide HashLaws, BoxLaws, KeyLaws;
  }

  lemma ChildPublic(c: Crypto, p: ExtKey, branch: uint32, index: uint32)
    requires Lawful(c) && !p.isPrivate && DeriveKey(c, Some(p), branch, index).Ok?
    ensures !DeriveKey(c, Some(p), branch, index).value.isPrivate
    ensures branch < HARDENED && index < HARDENED
  {
    hide HashLaws, BoxLaws, KeyLaws;
  }

  /** BIP 32 over both levels: what the public account key derives is the neutered form
      of what the private account key derives. */
  lemma NeuterCommutes(c: Crypto, k: ExtKey, branch: uint32, index: uint32)
    requires Lawful(c) && k.isPrivate && c.neuter(k).Some?
    requires DeriveKey(c, c.neuter(k), branch, index).Ok?
    ensures DeriveKey(c, Some(k), branch, index).Ok?
    ensures c.neuter(DeriveKey(c, Some(k), branch, index).value) == Some(DeriveKey(c, c.neuter(k), branch, index).value)
    ensures c.point(DeriveKey(c, Some(k), branch, index).value) ==
            c.point(DeriveKey(c, c.neuter(k), branch, index).value)
  {
    hide HashLaws, BoxLaws;
    var p := c.neuter(k).value;
    ChildPublic(c, p, branch, index);
    assert c.child(k, branch).Child?;
    var b := c.child(k, branch).key;
    assert b.isPrivate && c.child(p, branch) == Child(c.neuter(b).value);
    assert c.child(b, index).Child?;
    ChildPrivate(c, k, branch, index);
  }

  /** The key an address is built from, seen from its path. */
  ghost predicate KeyOf(c: Crypto, sec: Secrets, sc: KeyScope, path: Path, key: ExtKey) {
    && AddressKey(c, sec.root, sc, path).Ok?
    && var k := AddressKey(c, sec.root, sc, path).value;
    && k.isPrivate
    && (if key.isPrivate then key == k else c.point(key) == c.point(k))
  }

  lemma WorkingKeyOf(c: Crypto, sec: Secrets, sc: KeyScope, path: Path, m: Mgr, a: Account)
    requires Lawful(c) && sec.root.isPrivate && AccountOK(c, sec, sc, path.account, a)
    requires HasPrivate(m) ==> a.keyPriv == OpenKey(c, sec.priv, a.keyEnc)
    requires DeriveKey(c, WorkingKey(m, a), path.branch, path.index).Ok?
    ensures KeyOf(c, sec, sc, path, DeriveKey(c, WorkingKey(m, a), path.branch, path.index).value)
    ensures DeriveKey(c, WorkingKey(m, a), path.branch, path.index).value.isPrivate <==> HasPrivate(m)
  {
    hide HashLaws, BoxLaws, KeyLaws, DeriveKey, AccountKey, OpenKey;
    AccountKeyPrivate(c, sec.root, sc, path.account);
    var k := AccountKey(c, sec.root, sc, path.account).value;
    if HasPrivate(m) {
      ChildPrivate(c, k, path.branch, path.index);
    } else {
      NeuterCommutes(c, k, path.branch, path.index);
      ChildPublic(c, a.keyPub, path.branch, path.index);
      ChildPrivate(c, k, path.branch, path.index);
    }
  }

  // ---------------------------------------------------------- creating addresses

  lemma NewAddressOK(c: Crypto, sec: Secrets, m: Mgr, sc: KeyScope, kind: byte, key: ExtKey, path: Path,
                     acctPriv: Option<ExtKey>, rand: Prng, i: nat)
    requires Lawful(c) && KeyOf(c, sec, sc, path, key)
    requires key.isPrivate ==> m.cryptoPriv == sec.priv
    requires NewAddress(c, m, sc, kind, key, path, acctPriv, rand, i).Ok?
    ensures var a := NewAddress(c, m, sc, kind, key, path, acctPriv, rand, i).value;
            && a.scope == sc && a.path == path && AddrOK(c, sec, a)
            && (key.isPrivate <==> a.privEnc != [])
            && a.kind == kind && (a.internal <==> path.branch == 1)
  {
    hide HashLaws, BoxLaws, ChildLaws, AddressKey, DeriveKey, Decrypt;
  }

  lemma AddAddressOK(c: Crypto, sec: Secrets, m: Mgr, sc: KeyScope, key: ExtKey, path: Path,
                     acctPriv: Option<ExtKey>, rand: Prng, i: nat)
    requires Lawful(c) && MgrOK(c, sec, m) && sc in m.scopes && path.account in m.scopes[sc].accounts
    requires KeyOf(c, sec, sc, path, key) && (key.isPrivate <==> !m.locked)
    ensures MgrOK(c, sec, KeyToManaged(c, m, sc, key, path, acctPriv, rand, i).0)
  {
    hide Lawful, AddrOK, AccountOK, Base, NewAddress, KeyOf, OpenKey;
    assert key.isPrivate ==> m.cryptoPriv == sec.priv by { NetOf(c, sec, m); }
    var kind := AddrType(m.scopes[sc].schema, path.branch);
    if NewAddress(c, m, sc, kind, key, path, acctPriv, rand, i).Ok? {
      NewAddressOK(c, sec, m, sc, kind, key, path, acctPriv, rand, i);
      var a := NewAddress(c, m, sc, kind, key, path, acctPriv, rand, i).value;
      GrowHeap(c, sec, m, sc, key.isPrivate, a, Entry(|m.heap|, path.branch, path.index));
    }
  }

  lemma NetOf(c: Crypto, sec: Secrets, m: Mgr)
    requires MgrOK(c, sec, m)
    ensures !m.watchingOnly && (!m.locked ==> m.cryptoPriv == sec.priv)
  {
  }

  lemma GrowHeap(c: Crypto, sec: Secrets, m: Mgr, sc: KeyScope, isPrivate: bool, a: Address, e: Entry)
    requires MgrOK(c, sec, m) && sc in m.scopes && a.path.account in m.scopes[sc].accounts
    requires a.scope == sc && AddrOK(c, sec, a) && (isPrivate <==> a.privEnc != []) && (isPrivate <==> !m.locked)
    requires TypeOK(m, a)
    requires e == Entry(|m.heap|, a.path.branch, a.path.index)
    ensures var s := m.scopes[sc];
            var queue := if isPrivate then s.queue else s.queue + [e];
            MgrOK(c, sec, m.(heap := m.heap + [a], scopes := m.scopes[sc := s.(queue := queue)]))
  {
    hide Base, Structured, Mode, AccountsOK, HeapOK, ShapesOK, AddrOK;
    var s := m.scopes[sc];
    var queue := if isPrivate then s.queue else s.queue + [e];
    var m' := m.(heap := m.heap + [a], scopes := m.scopes[sc := s.(queue := queue)]);
    SameBase(c, sec, m, m');
    assert CachesOK(c, m) by { CachesOf(c, m); }
    GrowStructured(m, sc, isPrivate, a, e);
    GrowShapes(c, m, sc, queue, a);
    GrowKeys(c, sec, m, sc, isPrivate, a, e);
    GrowMode(c, sec, m, sc, isPrivate, a, e);
  }

  lemma CachesOf(c: Crypto, m: Mgr)
    requires ShapesOK(c, m)
    ensures CachesOK(c, m)
  {
    hide TypesOK, CachesOK;
  }

  lemma GrowKeys(c: Crypto, sec: Secrets, m: Mgr, sc: KeyScope, isPrivate: bool, a: Address, e: Entry)
    requires HeapOK(c, sec, m) && AccountsOK(c, sec, m) && sc in m.scopes && a.scope == sc && AddrOK(c, sec, a)
    requires (isPrivate <==> a.privEnc != []) && e == Entry(|m.heap|, a.path.branch, a.path.index)
    ensures var s := m.scopes[sc];
            var queue := if isPrivate then s.queue else s.queue + [e];
            var m' := m.(heap := m.heap + [a], scopes := m.scopes[sc := s.(queue := queue)]);
            HeapOK(c, sec, m') && AccountsOK(c, sec, m')
  {
    hide AddrOK, AccountOK;
    var s := m.scopes[sc];
    var queue := if isPrivate then s.queue else s.queue + [e];
    var m' := m.(heap := m.heap + [a], scopes := m.scopes[sc := s.(queue := queue)]);
    forall i | 0 <= i < |m'.heap| && m'.heap[i].privEnc == [] ensures Queued(m', i) {
      if i < |m.heap| {
        assert Queued(m, i);
        KeepsQueued(m, m', i);
      } else {
        assert m'.scopes[sc].queue[|s.queue|].addr == i;
      }
    }
  }

  lemma GrowMode(c: Crypto, sec: Secrets, m: Mgr, sc: KeyScope, isPrivate: bool, a: Address, e: Entry)
    requires Mode(c, sec, m) && CachesOK(c, m) && sc in m.scopes && (isPrivate <==> !m.locked)
    ensures var s := m.scopes[sc];
            var queue := if isPrivate then s.queue else s.queue + [e];
            Mode(c, sec, m.(heap := m.heap + [a], scopes := m.scopes[sc := s.(queue := queue)]))
  {
    hide OpenKey;
    forall t, id | t in m.scopes && id in m.scopes[t].addrs ensures m.scopes[t].addrs[id] < |m.heap| {
      assert CachedAs(c, m, t, id, m.scopes[t].addrs[id]);
    }
  }

  lemma GrowShapes(c: Crypto, m: Mgr, sc: KeyScope, queue: seq<Entry>, a: Address)
    requires ShapesOK(c, m) && sc in m.scopes && a.scope == sc && TypeOK(m, a)
    ensures ShapesOK(c, m.(heap := m.heap + [a], scopes := m.scopes[sc := m.scopes[sc].(queue := queue)]))
  {
    var m' := m.(heap := m.heap + [a], scopes := m.scopes[sc := m.scopes[sc].(queue := queue)]);
    forall i | 0 <= i < |m'.heap| ensures TypeOK(m', m'.heap[i]) {
      if i < |m.heap| { assert TypeOK(m, m.heap[i]); }
    }
    forall t, id | t in m'.scopes && id in m'.scopes[t].addrs ensures CachedAs(c, m', t, id, m'.scopes[t].addrs[id]) {
      assert CachedAs(c, m, t, id, m.scopes[t].addrs[id]);
    }
  }

  lemma KeepsQueued(m: Mgr, m': Mgr, i: nat)
    requires Queued(m, i) && |m'.heap| >= |m.heap| && m'.heap[i].scope == m.heap[i].scope
    requires m.heap[i].scope in m'.scopes && m.scopes[m.heap[i].scope].queue <= m'.scopes[m.heap[i].scope].queue
    ensures Queued(m', i)
  {
    var j :| 0 <= j < |m.scopes[m.heap[i].scope].queue| && m.scopes[m.heap[i].scope].queue[j].addr == i;
    assert m'.scopes[m.heap[i].scope].queue[j].addr == i;
  }

  lemma GrowStructured(m: Mgr, sc: KeyScope, isPrivate: bool, a: Address, e: Entry)
    requires Structured(m) && sc in m.scopes && a.scope == sc && a.path.account in m.scopes[sc].accounts
    requires e == Entry(|m.heap|, a.path.branch, a.path.index)
    ensures var s := m.scopes[sc];
            var queue := if isPrivate then s.queue else s.queue + [e];
            Structured(m.(heap := m.heap + [a], scopes := m.scopes[sc := s.(queue := queue)]))
  {
    var s := m.scopes[sc];
    var queue := if isPrivate then s.queue else s.queue + [e];
    var m' := m.(heap := m.heap + [a], scopes := m.scopes[sc := s.(queue := queue)]);
    forall t, i | t in m'.scopes && 0 <= i < |m'.scopes[t].queue| ensures EntryCached(m', t, m'.scopes[t].queue[i]) {
      if i < |m.scopes[t].queue| {
        assert m'.scopes[t].queue[i] == m.scopes[t].queue[i];
        assert EntryCached(m, t, m.scopes[t].queue[i]);
      }
    }
  }

  // ------------------------------------------------------------ loading accounts

  lemma AddAccountOK(c: Crypto, sec: Secrets, m: Mgr, sc: KeyScope, n: uint32, a: Account)
    requires MgrOK(c, sec, m) && sc in m.scopes && AccountOK(c, sec, sc, n, a)
    requires a.keyPriv == if m.locked then None else OpenKey(c, sec.priv, a.keyEnc)
    ensures MgrOK(c, sec, WithAccount(m, sc, n, a))
  {
    hide Base, Mode, AccountsOK, HeapOK, Structured, ShapesOK, AccountOK, OpenKey;
    var m' := WithAccount(m, sc, n, a);
    SameBase(c, sec, m, m');
    AddAccountHeap(c, sec, m, sc, n, a);
    AddAccountMode(c, sec, m, sc, n, a);
    AddAccountStructured(m, sc, n, a);
    SameShapes(c, m, m');
  }

  lemma SameBase(c: Crypto, sec: Secrets, m: Mgr, m': Mgr)
    requires Base(c, sec, m) && m' == m.(scopes := m'.scopes, heap := m'.heap)
    ensures Base(c, sec, m')
  {
    hide Decrypt;
  }

  lemma AddAccountHeap(c: Crypto, sec: Secrets, m: Mgr, sc: KeyScope, n: uint32, a: Account)
    requires HeapOK(c, sec, m) && AccountsOK(c, sec, m) && sc in m.scopes && AccountOK(c, sec, sc, n, a)
    ensures HeapOK(c, sec, WithAccount(m, sc, n, a)) && AccountsOK(c, sec, WithAccount(m, sc, n, a))
  {
    hide AddrOK, AccountOK;
    var m' := WithAccount(m, sc, n, a);
    forall i | 0 <= i < |m'.heap| && m'.heap[i].privEnc == [] ensures Queued(m', i) {
      assert Queued(m, i);
      KeepsQueued(m, m', i);
    }
  }

  lemma AddAccountMode(c: Crypto, sec: Secrets, m: Mgr, sc: KeyScope, n: uint32, a: Account)
    requires Mode(c, sec, m) && sc in m.scopes && AccountOK(c, sec, sc, n, a)
    requires a.keyPriv == if m.locked then None else OpenKey(c, sec.priv, a.keyEnc)
    ensures Mode(c, sec, WithAccount(m, sc, n, a))
  {
    hide OpenKey, AccountKey;
  }

  /** Schemas, caches and what identifies an address are all the shapes depend on. */
  lemma SameShapes(c: Crypto, m: Mgr, m': Mgr)
    requires ShapesOK(c, m) && m'.scopes.Keys == m.scopes.Keys && |m'.heap| == |m.heap|
    requires forall sc :: sc in m.scopes ==>
               m'.scopes[sc].schema == m.scopes[sc].schema && m'.scopes[sc].addrs == m.scopes[sc].addrs
    requires forall i :: 0 <= i < |m.heap| ==> SameIdentity(m.heap[i], m'.heap[i])
    ensures ShapesOK(c, m')
  {
    forall i | 0 <= i < |m'.heap| ensures TypeOK(m', m'.heap[i]) { assert TypeOK(m, m.heap[i]); }
    forall sc, id | sc in m'.scopes && id in m'.scopes[sc].addrs
      ensures CachedAs(c, m', sc, id, m'.scopes[sc].addrs[id])
    {
      assert CachedAs(c, m, sc, id, m.scopes[sc].addrs[id]);
    }
  }

  /** Everything about an address but its private material. */
  predicate SameIdentity(a: Address, b: Address) {
    && b.scope == a.scope && b.path == a.path && b.pubKey == a.pubKey && b.kind == a.kind && b.internal == a.internal
  }

  lemma AddAccountStructured(m: Mgr, sc: KeyScope, n: uint32, a: Account)
    requires Structured(m) && sc in m.scopes
    ensures Structured(WithAccount(m, sc, n, a))
  {
    var m' := WithAccount(m, sc, n, a);
    forall t, i | t in m'.scopes && 0 <= i < |m'.scopes[t].queue| ensures EntryCached(m', t, m'.scopes[t].queue[i]) {
      assert EntryCached(m, t, m.scopes[t].queue[i]);
    }
  }

  /** Caching the account before or after its last address is made is the same. */
  lemma LoadCommutes(c: Crypto, m: Mgr, sc: KeyScope, n: uint32, a: Account, key: ExtKey, path: Path, rand: Prng)
    requires sc in m.scopes && KeyToManaged(c, m, sc, key, path, a.keyPriv, rand, 0).1.Ok?
    ensures KeyToManaged(c, m, sc, key, path, a.keyPriv, rand, 0).1 == Ok(|m.heap|)
    ensures WithAccount(KeyToManaged(c, m, sc, key, path, a.keyPriv, rand, 0).0, sc, n, a.(lastInternal := |m.heap|))
         == KeyToManaged(c, WithAccount(m, sc, n, a.(lastInternal := |m.heap|)), sc, key, path, a.keyPriv, rand, 0).0
  {
    hide NewAddress;
    var b, s := a.(lastInternal := |m.heap|), m.scopes[sc];
    var m1 := WithAccount(m, sc, n, b);
    NewAddressFrame(c, m, m1, sc, AddrType(s.schema, path.branch), key, path, a.keyPriv, rand, 0);
    var queue := if key.isPrivate then s.queue else s.queue + [Entry(|m.heap|, path.branch, path.index)];
    SetTwice(m.scopes, sc, s.(queue := queue), s.(queue := queue, accounts := s.accounts[n := b]));
    SetTwice(m.scopes, sc, s.(accounts := s.accounts[n := b]), s.(queue := queue, accounts := s.accounts[n := b]));
  }

  lemma SetTwice(scopes: map<KeyScope, Scoped>, sc: KeyScope, x: Scoped, y: Scoped)
    ensures scopes[sc := x][sc := y] == scopes[sc := y]
  {
  }

  lemma NewAddressFrame(c: Crypto, m: Mgr, m': Mgr, sc: KeyScope, kind: byte, key: ExtKey, path: Path,
                        acctPriv: Option<ExtKey>, rand: Prng, i: nat)
    requires m'.net == m.net && m'.cryptoPriv == m.cryptoPriv
    ensures NewAddress(c, m', sc, kind, key, path, acctPriv, rand, i) ==
            NewAddress(c, m, sc, kind, key, path, acctPriv, rand, i)
  {
  }

  lemma RowAccountOK(c: Crypto, sec: Secrets, m: Mgr, sc: KeyScope, n: uint32, row: AcctRow)
    requires Lawful(c) && MgrOK(c, sec, m) && RowOK(c, sec, sc, n, row)
    ensures OpenKey(c, m.cryptoPub, row.pubEnc).Some?
    ensures var a := AccountFrom(c, m, row, OpenKey(c, m.cryptoPub, row.pubEnc).value);
            && AccountOK(c, sec, sc, n, a)
            && a.keyPriv == if m.locked then None else OpenKey(c, sec.priv, a.keyEnc)
  {
    hide Lawful, OpenKey, AccountKey, HeapOK, AccountsOK, Structured;
  }

  lemma LoadRowOK(c: Crypto, sec: Secrets, m: Mgr, sc: KeyScope, n: uint32, row: AcctRow, rand: Prng)
    requires Lawful(c) && MgrOK(c, sec, m) && sc in m.scopes && n !in m.scopes[sc].accounts && RowOK(c, sec, sc, n, row)
    ensures MgrOK(c, sec, LoadRowInto(c, m, sc, n, row, rand).0)
    ensures m.net && KeyTyped(m.scopes[sc].schema) ==> !LoadRowInto(c, m, sc, n, row, rand).1.Fault?
  {
    hide Lawful, OpenKey, AccountOK, AccountFrom, DeriveKey, KeyToManaged, MgrOK, WithAccount;
    assert sec.root.isPrivate && !m.watchingOnly by { NetOf(c, sec, m); RootOf(c, sec, m); }
    RowAccountOK(c, sec, m, sc, n, row);
    var a := AccountFrom(c, m, row, OpenKey(c, m.cryptoPub, row.pubEnc).value);
    var path := Path(n, EXTERNAL, LastIndex(row));
    assert WorkingKey(m, a).Some? by { OpenOfAccount(c, sec, sc, n, a); }
    DeriveNoFault(c, WorkingKey(m, a), path.branch, path.index);
    if DeriveKey(c, WorkingKey(m, a), EXTERNAL, LastIndex(row)).Ok? {
      var key := DeriveKey(c, WorkingKey(m, a), EXTERNAL, LastIndex(row)).value;
      WorkingKeyOf(c, sec, sc, path, m, a);
      if m.net && KeyTyped(m.scopes[sc].schema) { ManagedNoFault(c, m, sc, key, path, a.keyPriv, rand, 0); }
      if KeyToManaged(c, m, sc, key, path, a.keyPriv, rand, 0).1.Ok? {
        LoadCommutes(c, m, sc, n, a, key, path, rand);
        var b := a.(lastInternal := |m.heap|);
        assert AccountOK(c, sec, sc, n, b) by { SameKeys(c, sec, sc, n, a, b); }
        AddAccountOK(c, sec, m, sc, n, b);
        WithAccountFacts(m, sc, n, b);
        AddAddressOK(c, sec, WithAccount(m, sc, n, b), sc, key, path, a.keyPriv, rand, 0);
      }
    }
  }

  lemma RootOf(c: Crypto, sec: Secrets, m: Mgr)
    requires MgrOK(c, sec, m)
    ensures sec.root.isPrivate
  {
  }

  lemma OpenOfAccount(c: Crypto, sec: Secrets, sc: KeyScope, n: uint32, a: Account)
    requires AccountOK(c, sec, sc, n, a)
    ensures OpenKey(c, sec.priv, a.keyEnc).Some?
  {
  }

  lemma SameKeys(c: Crypto, sec: Secrets, sc: KeyScope, n: uint32, a: Account, b: Account)
    requires AccountOK(c, sec, sc, n, a) && b.keyEnc == a.keyEnc && b.keyPub == a.keyPub
    ensures AccountOK(c, sec, sc, n, b)
  {
  }

  lemma WithAccountFacts(m: Mgr, sc: KeyScope, n: uint32, a: Account)
    requires sc in m.scopes
    ensures var m' := WithAccount(m, sc, n, a);
            m'.locked == m.locked && sc in m'.scopes && n in m'.scopes[sc].accounts
  {
  }

  lemma DeriveNoFault(c: Crypto, k: Option<ExtKey>, branch: uint32, index: uint32)
    requires k.Some?
    ensures !DeriveKey(c, k, branch, index).Fault?
  {
  }

  lemma ManagedNoFault(c: Crypto, m: Mgr, sc: KeyScope, key: ExtKey, path: Path, acctPriv: Option<ExtKey>, rand: Prng,
                       i: nat)
    requires sc in m.scopes && m.net && KeyType(AddrType(m.scopes[sc].schema, path.branch))
    ensures !KeyToManaged(c, m, sc, key, path, acctPriv, rand, i).1.Fault?
  {
  }

  /** loadAccountInfo keeps the invariant and, with chain parameters and where the scope's
      address types have an address, never faults. */
  lemma LoadAccountOK(c: Crypto, sec: Secrets, m: Mgr, db: Db, sc: KeyScope, n: uint32, rand: Prng)
    requires Lawful(c) && MgrOK(c, sec, m) && DbOK(c, sec, db) && sc in m.scopes
    ensures MgrOK(c, sec, LoadAccount(c, m, db, sc, n, rand).0)
    ensures m.net && KeyTyped(m.scopes[sc].schema) ==> !LoadAccount(c, m, db, sc, n, rand).1.Fault?
    ensures LoadAccount(c, m, db, sc, n, rand).0.locked == m.locked && LoadAccount(c, m, db, sc, n, rand).0.net == m.net
  {
    hide Lawful, MgrOK, LoadRowInto, RowOK, OpenKey;
    if n !in m.scopes[sc].accounts && sc in db && n in db[sc].table.rows {
      var row := db[sc].table.rows[n];
      LoadRowLocked(c, m, sc, n, row, rand);
      if n != IMPORTED {
        LoadRowOK(c, sec, m, sc, n, row, rand);
      } else {
        ImportedUnreadable(c, m, sc, row, rand);
      }
    }
  }

  lemma LoadRowLocked(c: Crypto, m: Mgr, sc: KeyScope, n: uint32, row: AcctRow, rand: Prng)
    requires sc in m.scopes
    ensures LoadRowInto(c, m, sc, n, row, rand).0.locked == m.locked
    ensures LoadRowInto(c, m, sc, n, row, rand).0.net == m.net
  {
  }

  /** The imported account's row has no keys, so it is never cached. */
  lemma ImportedUnreadable(c: Crypto, m: Mgr, sc: KeyScope, row: AcctRow, rand: Prng)
    requires sc in m.scopes && row.pubEnc == []
    ensures LoadRowInto(c, m, sc, IMPORTED, row, rand) == (m, Err(ErrCrypto))
  {
  }

  /** DeriveFromKeyPath keeps the invariant and, with chain parameters and where the scope's
      address types have an address, never faults, even where it fails after having cached the account. */
  lemma DeriveAddressOK(c: Crypto, sec: Secrets, m: Mgr, db: Db, sc: KeyScope, path: Path, rand: Prng)
    requires Lawful(c) && MgrOK(c, sec, m) && DbOK(c, sec, db) && sc in m.scopes
    ensures MgrOK(c, sec, DeriveAddress(c, m, db, sc, path, rand).0)
    ensures m.net && KeyTyped(m.scopes[sc].schema) ==> !DeriveAddress(c, m, db, sc, path, rand).1.Fault?
  {
    hide Lawful, MgrOK, LoadAccount, DeriveKey, KeyToManaged, OpenKey, AccountOK;
    LoadAccountOK(c, sec, m, db, sc, path.account, rand);
    var (m1, loaded) := LoadAccount(c, m, db, sc, path.account, rand);
    if loaded.Ok? {
      var a := m1.scopes[sc].accounts[path.account];
      CachedAccount(c, sec, m1, sc, path.account);
      assert WorkingKey(m1, a).Some?;
      DeriveNoFault(c, WorkingKey(m1, a), path.branch, path.index);
      if DeriveKey(c, WorkingKey(m1, a), path.branch, path.index).Ok? {
        var key := DeriveKey(c, WorkingKey(m1, a), path.branch, path.index).value;
        WorkingKeyOf(c, sec, sc, path, m1, a);
        if m1.net && KeyTyped(m1.scopes[sc].schema) { ManagedNoFault(c, m1, sc, key, path, a.keyPriv, rand, 1); }
        AddAddressOK(c, sec, m1, sc, key, path, a.keyPriv, rand, 1);
      }
    }
  }

  lemma CachedAccount(c: Crypto, sec: Secrets, m: Mgr, sc: KeyScope, n: uint32)
    requires MgrOK(c, sec, m) && sc in m.scopes && n in m.scopes[sc].accounts
    ensures !m.watchingOnly && sec.root.isPrivate
    ensures var a := m.scopes[sc].accounts[n];
            && AccountOK(c, sec, sc, n, a)
            && a.keyPriv == (if m.locked then None else OpenKey(c, sec.priv, a.keyEnc))
            && OpenKey(c, sec.priv, a.keyEnc).Some?
  {
    hide OpenKey, HeapOK, Structured, AccountKey;
  }
}
