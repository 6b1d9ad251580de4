/** The manager's state and its operations as values: the key hierarchy from passphrase
    to address keys, the account and address caches of each scope, and the queue of
    addresses that were derived from public keys while the manager was locked.

    Managed addresses are shared by reference in the source (cache, queue and callers
    hold the same object), so they live in an explicit heap and are named by index.
 */
module Keyring {
  import opened ByteCodec
  import opened Errors
  import opened Primitives
  import opened Snacl
  import opened AccountRow
  import opened AccountTable

  datatype KeyScope = KeyScope(purpose: uint32, coin: uint32)

  /** ScopeAddrSchema: the address types of the two branches. */
  datatype Schema = Schema(external: byte, internal: byte)

  const EXTERNAL: uint32 := 0
  const INTERNAL: uint32 := 1
  const MAX_COIN_TYPE: uint32 := 0x7FFF_FFFF
  const SALT_SIZE: nat := 32

  datatype Path = Path(account: uint32, branch: uint32, index: uint32)

  datatype Address = Address(
    scope: KeyScope, path: Path, pubKey: Bytes, kind: byte, internal: bool,
    privEnc: Bytes, privCT: Bytes)

  datatype Account = Account(
    name: Bytes, keyEnc: Bytes, keyPriv: Option<ExtKey>, keyPub: ExtKey,
    nextExternal: uint32, nextInternal: uint32, lastInternal: nat)

  /** unlockDeriveInfo. */
  datatype Entry = Entry(addr: nat, branch: uint32, index: uint32)

  datatype Scoped = Scoped(
    schema: Schema, accounts: map<uint32, Account>, addrs: map<Bytes, nat>, queue: seq<Entry>)

  datatype Mgr = Mgr(
    net: bool,                      // chainParams is set
    watchingOnly: bool,
    locked: bool,
    master: Bytes,                  // masterKeyPriv.Key
    params: Params,                 // masterKeyPriv.Parameters
    cryptoPub: Bytes,
    cryptoPriv: Bytes,
    cryptoPrivEnc: Bytes,
    cryptoScript: Bytes,            // cryptoKeyScript
    cryptoScriptEnc: Bytes,
    salt: Bytes,                    // privPassphraseSalt
    hashed: Bytes,                  // hashedPrivPassphrase
    scopes: map<KeyScope, Scoped>,
    heap: seq<Address>)

  /** The committed database: every scope's coin-type keys and account table. */
  type Db = map<KeyScope, ScopeDb>

  // ------------------------------------------------------------ key derivation

  function DeriveCoinTypeKey(c: Crypto, root: ExtKey, sc: KeyScope): Outcome<ExtKey> {
    if sc.coin > MAX_COIN_TYPE then Err(ErrCoinTypeTooHigh)
    else match c.child(root, Add32(sc.purpose, HARDENED))
      case Child(purpose) =>
        (match c.child(purpose, Add32(sc.coin, HARDENED))
         case Child(k) => Ok(k)
         case _ => Err(ErrKeyChain))
      case _ => Err(ErrKeyChain)
  }

  /** deriveKey: two levels below the account key; a nil account key faults. */
  function DeriveKey(c: Crypto, acctKey: Option<ExtKey>, branch: uint32, index: uint32): Outcome<ExtKey> {
    match acctKey
    case None => Fault
    case Some(k) =>
      match c.child(k, branch)
      case Child(b) =>
        (match c.child(b, index)
         case Child(a) => Ok(a)
         case _ => Err(ErrKeyChain))
      case _ => Err(ErrKeyChain)
  }

  // ---------------------------------------------------------- managed addresses

  function AddrType(schema: Schema, branch: uint32): byte {
    if branch == INTERNAL then schema.internal else schema.external
  }

  /** The address types that have a btcutil address; the others get a nil one. */
  predicate KeyType(kind: byte) { kind == 0 || kind == 3 || kind == 4 || kind == 6 }

  /** The random challenge of the i-th private address: each takes a nonce and a challenge. */
  function Challenge(rand: Prng, i: nat): Option<Bytes> { ReadRandom(rand, 2 * i + 1, 32) }

  predicate TwoReads(rand: Prng, i: nat) { Nonce(rand, 2 * i).Some? && Challenge(rand, i).Some? }

  /** What building an address takes besides its key: a public one of a type with an address
      needs chain parameters, a private one is validated and needs such a type and two reads. */
  predicate Buildable(m: Mgr, isPrivate: bool, kind: byte, rand: Prng, i: nat) {
    if isPrivate then m.net && KeyType(kind) && TwoReads(rand, i) else m.net || !KeyType(kind)
  }

  /** managedAddress.Validate: the public keys agree, the address can be printed, and a
      sample signature verifies. */
  function Validate(c: Crypto, a: Address, msg: Bytes, d: Bytes): Outcome<()> {
    if a.pubKey != c.pointOf(d) then Err(ErrPubKeyMismatch)
    else if !KeyType(a.kind) then Fault
    else match c.sign(a.kind, a.privCT, msg)
      case None => Err(ErrInvalidSignature)
      case Some(sig) => if c.verify(a.kind, c.pointOf(d), msg, sig) then Ok(()) else Err(ErrInvalidSignature)
  }

  /** newManagedAddressFromExtKey.  Without chain parameters building the address faults;
      a private key is validated, and once more against the key re-derived from the account. */
  function NewAddress(c: Crypto, m: Mgr, sc: KeyScope, kind: byte, key: ExtKey, path: Path, acctPriv: Option<ExtKey>,
                      rand: Prng, i: nat): Outcome<Address>
  {
    if !key.isPrivate then
      if !m.net && KeyType(kind) then Fault
      else Ok(Address(sc, path, c.point(key), kind, path.branch == INTERNAL, [], []))
    else
      var privEnc :- SealWith(c, m.cryptoPriv, c.scalar(key), rand, 2 * i);
      if !m.net && KeyType(kind) then Fault else
      var a := Address(sc, path, c.pointOf(c.scalar(key)), kind, path.branch == INTERNAL, privEnc, c.scalar(key));
      match Challenge(rand, i)
      case None => Err(ErrCrypto)
      case Some(msg) =>
        var _ :- Validate(c, a, msg, c.scalar(key));
        if acctPriv == None then Ok(a) else
        var again :- DeriveKey(c, acctPriv, path.branch, path.index);
        var _ :- Validate(c, a, msg, c.scalar(again));
        Ok(a)
  }

  /** keyToManaged: the new object, queued for unlock when its key was public. */
  function KeyToManaged(c: Crypto, m: Mgr, sc: KeyScope, key: ExtKey, path: Path, acctPriv: Option<ExtKey>,
                        rand: Prng, i: nat): (r: (Mgr, Outcome<nat>))
    requires sc in m.scopes
    ensures r.0.scopes.Keys == m.scopes.Keys
    ensures r.0.scopes[sc].accounts == m.scopes[sc].accounts && r.0.scopes[sc].schema == m.scopes[sc].schema
  {
    match NewAddress(c, m, sc, AddrType(m.scopes[sc].schema, path.branch), key, path, acctPriv, rand, i)
    case Ok(a) =>
      var s := m.scopes[sc];
      var queue := if key.isPrivate then s.queue else s.queue + [Entry(|m.heap|, path.branch, path.index)];
      (m.(heap := m.heap + [a], scopes := m.scopes[sc := s.(queue := queue)]), Ok(|m.heap|))
    case Err(e) => (m, Err(e))
    case Fault => (m, Fault)
  }

  // ------------------------------------------------------------------- accounts

  predicate HasPrivate(m: Mgr) { !m.locked && !m.watchingOnly }

  /** The accountInfo loadAccountInfo builds from a row; an unreadable private half is
      silently left nil. */
  function AccountFrom(c: Crypto, m: Mgr, row: AcctRow, pub: ExtKey): Account {
    Account(row.name, row.privEnc, if HasPrivate(m) then OpenKey(c, m.cryptoPriv, row.privEnc) else None, pub,
            row.nextExternal, row.nextInternal, 0)
  }

  function WorkingKey(m: Mgr, a: Account): Option<ExtKey> {
    if HasPrivate(m) then a.keyPriv else Some(a.keyPub)
  }

  function LastIndex(row: AcctRow): uint32 {
    if row.nextExternal > 0 then row.nextExternal - 1 else 0
  }

  function WithAccount(m: Mgr, sc: KeyScope, n: uint32, a: Account): Mgr
    requires sc in m.scopes
  {
    m.(scopes := m.scopes[sc := m.scopes[sc].(accounts := m.scopes[sc].accounts[n := a])])
  }

  /** loadAccountInfo. */
  function LoadAccount(c: Crypto, m: Mgr, db: Db, sc: KeyScope, n: uint32, rand: Prng): (r: (Mgr, Outcome<()>))
    requires sc in m.scopes
    ensures r.0.scopes.Keys == m.scopes.Keys
    ensures r.0.scopes[sc].schema == m.scopes[sc].schema
    ensures r.1.Ok? ==> n in r.0.scopes[sc].accounts
    ensures !r.1.Ok? ==> r.0 == m
  {
    if n in m.scopes[sc].accounts then (m, Ok(()))
    else if sc !in db then (m, Err(ErrScopeNotFound))
    else if n !in db[sc].table.rows then (m, Err(ErrAccountNotFound))
    else LoadRowInto(c, m, sc, n, db[sc].table.rows[n], rand)
  }

  function LoadRowInto(c: Crypto, m: Mgr, sc: KeyScope, n: uint32, row: AcctRow, rand: Prng): (r: (Mgr, Outcome<()>))
    requires sc in m.scopes
    ensures r.0.scopes.Keys == m.scopes.Keys
    ensures r.0.scopes[sc].schema == m.scopes[sc].schema
    ensures r.1.Ok? ==> n in r.0.scopes[sc].accounts
    ensures !r.1.Ok? ==> r.0 == m
  {
    match OpenKey(c, m.cryptoPub, row.pubEnc)
    case None => (m, Err(ErrCrypto))
    case Some(pub) =>
      var a := AccountFrom(c, m, row, pub);
      match DeriveKey(c, WorkingKey(m, a), EXTERNAL, LastIndex(row))
      case Err(e) => (m, Err(e))
      case Fault => (m, Fault)
      case Ok(key) =>
        var (m', ref) := KeyToManaged(c, m, sc, key, Path(n, EXTERNAL, LastIndex(row)), a.keyPriv, rand, 0);
        match ref
        case Ok(i) => (WithAccount(m', sc, n, a.(lastInternal := i)), Ok(()))
        case Err(e) => (m, Err(e))
        case Fault => (m, Fault)
  }

  /** DeriveFromKeyPath, and chainAddressRowToManaged, which is the same derivation. */
  function DeriveAddress(c: Crypto, m: Mgr, db: Db, sc: KeyScope, path: Path, rand: Prng): (r: (Mgr, Outcome<nat>))
    requires sc in m.scopes
    ensures r.0.scopes.Keys == m.scopes.Keys
    ensures r.0.scopes[sc].schema == m.scopes[sc].schema
  {
    var (m1, loaded) := LoadAccount(c, m, db, sc, path.account, rand);
    match loaded
    case Err(e) => (m1, Err(e))
    case Fault => (m1, Fault)
    case Ok(_) =>
      var a := m1.scopes[sc].accounts[path.account];
      match DeriveKey(c, WorkingKey(m1, a), path.branch, path.index)
      case Err(e) => (m1, Err(e))
      case Fault => (m1, Fault)
      case Ok(key) => KeyToManaged(c, m1, sc, key, path, a.keyPriv, rand, 1)
  }

  /** loadAndCacheAddress for a chained address row at `path`.  An address type without an
      address faults when its script address is asked for. */
  function CacheAddress(c: Crypto, m: Mgr, db: Db, sc: KeyScope, path: Path, rand: Prng): (r: (Mgr, Outcome<nat>))
    requires sc in m.scopes
    ensures r.0.scopes.Keys == m.scopes.Keys
    ensures r.0.scopes[sc].schema == m.scopes[sc].schema
  {
    var (m1, ref) := DeriveAddress(c, m, db, sc, path, rand);
    if ref.Ok? && ref.value < |m1.heap| then
      var a := m1.heap[ref.value];
      var s := m1.scopes[sc];
      if !KeyType(a.kind) then (m1, Fault) else
      (m1.(scopes := m1.scopes[sc := s.(addrs := s.addrs[c.script(a.pubKey, a.kind) := ref.value])]), ref)
    else (m1, ref)
  }

  /** MarkUsed drops the address from the cache. */
  function EvictAddress(m: Mgr, sc: KeyScope, id: Bytes): Mgr
    requires sc in m.scopes
  {
    m.(scopes := m.scopes[sc := m.scopes[sc].(addrs := m.scopes[sc].addrs - {id})])
  }

  // ---------------------------------------------------------------- private keys

  /** managedAddress.unlock: the clear text it returns, and the object afterwards. */
  function UnlockAddress(c: Crypto, key: Bytes, a: Address): (Address, Outcome<Bytes>) {
    if a.privEnc == [] then (a, Err(ErrWatchingOnly))
    else if a.privCT != [] then (a, Ok(a.privCT))
    else match Decrypt(c, key, a.privEnc)
      case None => (a, Err(ErrCrypto))
      case Some(d) => (a.(privCT := d), Ok(d))
  }

  /** managedAddress.lock. */
  function LockAddress(a: Address): Address { a.(privCT := []) }

  /** managedAddress.PrivKey. */
  function PrivKey(c: Crypto, m: Mgr, ref: nat): (Mgr, Outcome<Bytes>)
    requires ref < |m.heap|
  {
    if m.watchingOnly then (m, Err(ErrWatchingOnly))
    else if m.locked then (m, Err(ErrLocked))
    else
      var (a, r) := UnlockAddress(c, m.cryptoPriv, m.heap[ref]);
      (m.(heap := m.heap[ref := a]), r)
  }

  // ------------------------------------------------------------------------ lock

  function LockScoped(s: Scoped): (r: Scoped) {
    s.(accounts := map n | n in s.accounts :: s.accounts[n].(keyPriv := None))
  }

  /** The address is in some scope's cache, the only place lock() looks for addresses. */
  ghost predicate InCache(m: Mgr, ref: nat) {
    CachedAmong(m.scopes, m.scopes.Keys, ref)
  }

  ghost predicate CachedAmong(scopes: map<KeyScope, Scoped>, some: set<KeyScope>, ref: nat) {
    exists sc :: sc in some && sc in scopes && CachedBy(scopes[sc].addrs, ref)
  }

  ghost predicate CachedBy(addrs: map<Bytes, nat>, ref: nat) {
    exists id :: id in addrs && addrs[id] == ref
  }

  ghost function LockedHeap(m: Mgr): (h: seq<Address>)
    ensures |h| == |m.heap|
  {
    seq(|m.heap|, i requires 0 <= i < |m.heap| => if InCache(m, i) then LockAddress(m.heap[i]) else m.heap[i])
  }

  ghost function LockedScopes(scopes: map<KeyScope, Scoped>): map<KeyScope, Scoped> {
    map sc | sc in scopes :: LockScoped(scopes[sc])
  }

  /** lock(). */
  ghost function LockOf(m: Mgr): Mgr {
    m.(locked := true, master := Zeros(KEY_SIZE), cryptoPriv := Zeros(KEY_SIZE), cryptoScript := Zeros(KEY_SIZE),
       hashed := Zeros(64), scopes := LockedScopes(m.scopes), heap := LockedHeap(m))
  }

  /** Lock(). */
  ghost function Lock(m: Mgr): (Mgr, Outcome<()>) {
    if m.watchingOnly then (m, Err(ErrWatchingOnly))
    else if m.locked then (m, Err(ErrLocked))
    else (LockOf(m), Ok(()))
  }

  // ---------------------------------------------------------------------- unlock

  /** `append(salt[:], passphrase...)` reuses the salt's array when the passphrase is
      empty, so clearing the concatenation clears the salt. */
  function WipedSalt(salt: Bytes, pass: Bytes): Bytes {
    if pass == [] then Zeros(|salt|) else salt
  }

  /** copy(ck[:], from). */
  function CopyInto(to: Bytes, from: Bytes): (r: Bytes)
    ensures |r| == |to|
  {
    if |from| >= |to| then from[..|to|] else from + to[|from|..]
  }

  /** The address got the private key of its path below the account's sealed key. */
  ghost predicate Filled(c: Crypto, ck: Bytes, keyEnc: Bytes, a: Address, b: Address) {
    && OpenKey(c, ck, keyEnc).Some?
    && var k := DeriveKey(c, OpenKey(c, ck, keyEnc), a.path.branch, a.path.index);
    && k.Ok?
    && b == a.(privEnc := b.privEnc, privCT := c.scalar(k.value))
    && Decrypt(c, ck, b.privEnc) == Some(c.scalar(k.value))
    && b.privEnc != []
  }

  /** What the class keeps about its queues and caches by itself. */
  ghost predicate EntryCached(m: Mgr, sc: KeyScope, e: Entry) {
    && e.addr < |m.heap| && sc in m.scopes
    && m.heap[e.addr].scope == sc
    && m.heap[e.addr].path.branch == e.branch && m.heap[e.addr].path.index == e.index
    && m.heap[e.addr].path.account in m.scopes[sc].accounts
  }

  ghost predicate Structured(m: Mgr) {
    && |m.salt| == SALT_SIZE && |m.cryptoPriv| == KEY_SIZE
    && (forall sc, i :: sc in m.scopes && 0 <= i < |m.scopes[sc].queue| ==> EntryCached(m, sc, m.scopes[sc].queue[i]))
    && (forall i :: 0 <= i < |m.heap| ==>
          m.heap[i].scope in m.scopes && m.heap[i].path.account in m.scopes[m.heap[i].scope].accounts)
    && (forall sc, id :: sc in m.scopes && id in m.scopes[sc].addrs ==> m.scopes[sc].addrs[id] < |m.heap|)
  }

  /** The sealed key of the account an address belongs to. */
  ghost function SealedKeyOf(m: Mgr, a: Address): Bytes
    requires a.scope in m.scopes && a.path.account in m.scopes[a.scope].accounts
  {
    m.scopes[a.scope].accounts[a.path.account].keyEnc
  }

  /** The accounts of a scope before and after, private keys aside. */
  ghost predicate SameAccounts(s: Scoped, t: Scoped) {
    && t.accounts.Keys == s.accounts.Keys
    && t.schema == s.schema && t.addrs == s.addrs
    && forall n :: n in s.accounts ==> t.accounts[n].(keyPriv := None) == s.accounts[n].(keyPriv := None)
  }

  predicate IsSuffix(q: seq<Entry>, of: seq<Entry>) {
    |q| <= |of| && q == of[|of| - |q|..]
  }

  /** Some of the queued addresses were filled and popped: every queue is a suffix of
      what it was, each popped address is filled, every other address is untouched. */
  ghost predicate Drained(c: Crypto, ck: Bytes, pre: Mgr, post: Mgr)
    requires Structured(pre)
  {
    && post.scopes.Keys == pre.scopes.Keys
    && (forall sc :: sc in pre.scopes ==> SameAccounts(pre.scopes[sc], post.scopes[sc]))
    && (forall sc :: sc in pre.scopes ==> IsSuffix(post.scopes[sc].queue, pre.scopes[sc].queue))
    && HeapFilled(c, ck, pre, post.heap)
    && (forall sc :: sc in pre.scopes ==>
          PoppedFilled(c, ck, pre, pre.scopes[sc].queue, |pre.scopes[sc].queue| - |post.scopes[sc].queue|, post.heap))
  }

  ghost predicate HeapFilled(c: Crypto, ck: Bytes, pre: Mgr, heap: seq<Address>)
    requires Structured(pre)
  {
    && |heap| == |pre.heap|
    && forall i :: 0 <= i < |heap| ==>
         heap[i] == pre.heap[i] || Filled(c, ck, SealedKeyOf(pre, pre.heap[i]), pre.heap[i], heap[i])
  }

  ghost predicate PoppedFilled(c: Crypto, ck: Bytes, pre: Mgr, q: seq<Entry>, popped: int, heap: seq<Address>)
    requires Structured(pre)
  {
    forall j :: 0 <= j < popped && j < |q| && q[j].addr < |pre.heap| && q[j].addr < |heap| ==>
      Filled(c, ck, SealedKeyOf(pre, pre.heap[q[j].addr]), pre.heap[q[j].addr], heap[q[j].addr])
  }

  /** Every cached account's private key is the decryption of its own ciphertext. */
  ghost predicate AccountsOpen(c: Crypto, ck: Bytes, scopes: map<KeyScope, Scoped>) {
    forall sc, n :: sc in scopes && n in scopes[sc].accounts ==>
      && scopes[sc].accounts[n].keyPriv.Some?
      && scopes[sc].accounts[n].keyPriv == OpenKey(c, ck, scopes[sc].accounts[n].keyEnc)
  }

  /** The queue entries of some scopes, as pairs of scope and position. */
  ghost function Entries(scopes: map<KeyScope, Scoped>, some: set<KeyScope>): set<(KeyScope, int)> {
    set sc, i | sc in some && sc in scopes && 0 <= i < |scopes[sc].queue| :: (sc, i)
  }

  /** How many addresses are queued in all: the nonces an unlock reads. */
  ghost function QueueTotal(m: Mgr): nat { |Entries(m.scopes, m.scopes.Keys)| }

  ghost predicate NoncesFor(rand: Prng, n: nat) { forall i: nat :: i < n ==> Nonce(rand, i).Some? }

  /** Something that can stop an unlock once the master key is right, with its error: an
      account key that does not decrypt, or not to a key; a queued path that does not derive;
      a nonce that cannot be read. */
  ghost predicate Obstacle(c: Crypto, ck: Bytes, m: Mgr, rand: Prng, code: ErrorCode)
    requires Structured(m)
  {
    || (exists sc :: sc in m.scopes && AccountObstacle(c, ck, m.scopes[sc], code))
    || (code == ErrKeyChain &&
        exists sc, i :: sc in m.scopes && 0 <= i < |m.scopes[sc].queue| && EntryStuck(c, ck, m, m.scopes[sc].queue[i]))
    || (code == ErrCrypto && !NoncesFor(rand, QueueTotal(m)))
  }

  ghost predicate AccountObstacle(c: Crypto, ck: Bytes, s: Scoped, code: ErrorCode) {
    exists n :: n in s.accounts && Unreadable(c, ck, s.accounts[n].keyEnc, code)
  }

  predicate Unreadable(c: Crypto, ck: Bytes, keyEnc: Bytes, code: ErrorCode) {
    && OpenKey(c, ck, keyEnc) == None
    && code == if Decrypt(c, ck, keyEnc) == None then ErrCrypto else ErrKeyChain
  }

  ghost predicate EntryStuck(c: Crypto, ck: Bytes, m: Mgr, e: Entry)
    requires Structured(m)
  {
    && e.addr < |m.heap|
    && !DeriveKey(c, OpenKey(c, ck, SealedKeyOf(m, m.heap[e.addr])), e.branch, e.index).Ok?
  }

  /** An unlock past the master key: all drained and open, or locked again. */
  ghost predicate OpensWith(c: Crypto, pre: Mgr, pass: Bytes, k: Bytes, ck: Bytes, rand: Prng, post: Mgr,
                            r: Outcome<()>)
    requires Structured(pre)
  {
    if r.Ok? then
      && Drained(c, ck, pre, post)
      && AccountsOpen(c, ck, post.scopes)
      && NoncesFor(rand, QueueTotal(pre))
      && (forall sc :: sc in post.scopes ==> post.scopes[sc].queue == [])
      && post == pre.(locked := false, master := k, cryptoPriv := ck, salt := WipedSalt(pre.salt, pass),
                      hashed := c.sha512(pre.salt + pass), scopes := post.scopes, heap := post.heap)
    else
      && r.Err?
      && Obstacle(c, ck, pre, rand, r.code)
      && RelocksAfter(c, ck, pre, post)
  }

  ghost predicate RelocksAfter(c: Crypto, ck: Bytes, pre: Mgr, post: Mgr)
    requires Structured(pre)
  {
    exists scopes, heap ::
      var mid := pre.(scopes := scopes, heap := heap);
      Drained(c, ck, pre, mid) && post == LockOf(mid)
  }

  /** Unlock(). */
  ghost predicate Unlocks(c: Crypto, pre: Mgr, pass: Bytes, rand: Prng, post: Mgr, r: Outcome<()>)
    requires Structured(pre)
  {
    if pre.watchingOnly then post == pre && r == Err(ErrWatchingOnly)
    else if !pre.locked then
      var wiped := pre.(salt := WipedSalt(pre.salt, pass));
      if c.sha512(pre.salt + pass) == pre.hashed then post == wiped && r == Ok(())
      else post == LockOf(wiped) && r == Err(ErrWrongPassphrase)
    else
      match DeriveKeySpec(c, pre.params, pass)
      case (_, Some(e)) => post == LockOf(pre) && r == Err(if e.InvalidPassword? then ErrWrongPassphrase else ErrCrypto)
      case (k, None) =>
        match Decrypt(c, k.value, pre.cryptoPrivEnc)
        case None => post == LockOf(pre) && r == Err(ErrCrypto)
        case Some(dk) => OpensWith(c, pre, pass, k.value, CopyInto(pre.cryptoPriv, dk), rand, post, r)
  }
}
