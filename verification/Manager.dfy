/** The manager object: lock and Unlock with their loops over the scopes, accounts,
    address caches and queues, in whatever order Go's maps are ranged over.
 */
module Manager {
  import opened ByteCodec
  import opened Errors
  import opened Primitives
  import opened Snacl
  import opened AccountTable
  import opened Keyring
  import opened KeyringLocking
  import KA = KeyringAddresses
  import Allocation

  class Manager {
    var net: bool
    var watchingOnly: bool
    var locked: bool
    var master: Bytes
    var params: Params
    var cryptoPub: Bytes
    var cryptoPriv: Bytes
    var cryptoPrivEnc: Bytes
    var cryptoScript: Bytes
    var cryptoScriptEnc: Bytes
    const salt: array<byte>
    var hashed: Bytes
    var scopes: map<KeyScope, Scoped>
    var heap: seq<Address>

    ghost function State(): Mgr
      reads this, salt
    {
      Mgr(net, watchingOnly, locked, master, params, cryptoPub, cryptoPriv, cryptoPrivEnc, cryptoScript,
          cryptoScriptEnc, salt[..], hashed, scopes, heap)
    }

    /** newManager's object: locked, with blank private keys and a fresh salt. */
    constructor (m: Mgr)
      requires |m.salt| == SALT_SIZE
      ensures State() == m && fresh(salt)
    {
      net, watchingOnly, locked, master, params := m.net, m.watchingOnly, m.locked, m.master, m.params;
      cryptoPub, cryptoPriv, cryptoPrivEnc := m.cryptoPub, m.cryptoPriv, m.cryptoPrivEnc;
      cryptoScript, cryptoScriptEnc := m.cryptoScript, m.cryptoScriptEnc;
      hashed, scopes, heap := m.hashed, m.scopes, m.heap;
      salt := new byte[|m.salt|](i requires 0 <= i < |m.salt| => m.salt[i]);
      new;
      assert salt[..] == m.salt;
    }

    // ------------------------------------------------------------------ accounts

    /** keyToManaged: allocate the address, queue it when its key is public. */
    method KeyToManaged(c: Crypto, sc: KeyScope, key: ExtKey, path: Path, acctPriv: Option<ExtKey>, rand: Prng, i: nat)
      returns (r: Outcome<nat>)
      requires sc in scopes
      modifies this`heap, this`scopes
      ensures (State(), r) == Keyring.KeyToManaged(c, old(State()), sc, key, path, acctPriv, rand, i)
    {
      hide NewAddress;
      ghost var m := State();
      var kind := AddrType(scopes[sc].schema, path.branch);
      var a := MakeAddress(c, sc, kind, key, path, acctPriv, rand, i);
      if !a.Ok? {
        return a.PropagateFailure();
      }
      var ref := |heap|;
      heap := heap + [a.value];
      if !key.isPrivate {
        var queue := scopes[sc].queue + [Entry(ref, path.branch, path.index)];
        scopes := scopes[sc := scopes[sc].(queue := queue)];
      }
      assert scopes == m.scopes[sc := scopes[sc]];
      r := Ok(ref);
    }

    /** newManagedAddressFromExtKey. */
    method MakeAddress(c: Crypto, sc: KeyScope, kind: byte, key: ExtKey, path: Path, acctPriv: Option<ExtKey>,
                       rand: Prng, i: nat)
      returns (a: Outcome<Address>)
      ensures a == NewAddress(c, State(), sc, kind, key, path, acctPriv, rand, i)
    {
      hide DeriveKey, SealWith, Validate;
      var internal := path.branch == INTERNAL;
      if !key.isPrivate {
        if !net && KeyType(kind) { return Fault; }
        return Ok(Address(sc, path, c.point(key), kind, internal, [], []));
      }
      var bytes := c.scalar(key);
      var sealed := SealWith(c, cryptoPriv, bytes, rand, 2 * i);
      if !sealed.Ok? { return sealed.PropagateFailure(); }
      if !net && KeyType(kind) { return Fault; }
      var made := Address(sc, path, c.pointOf(bytes), kind, internal, sealed.value, bytes);
      var msg := Challenge(rand, i);
      if msg == None { return Err(ErrCrypto); }
      var valid := Validate(c, made, msg.value, bytes);
      if !valid.Ok? { return valid.PropagateFailure(); }
      if acctPriv == None { return Ok(made); }
      var again := DeriveKey(c, acctPriv, path.branch, path.index);
      if !again.Ok? { return again.PropagateFailure(); }
      valid := Validate(c, made, msg.value, c.scalar(again.value));
      if !valid.Ok? { return valid.PropagateFailure(); }
      a := Ok(made);
    }

    method LoadAccountInfo(c: Crypto, db: Db, sc: KeyScope, n: uint32, rand: Prng) returns (r: Outcome<()>)
      requires sc in scopes
      modifies this`heap, this`scopes
      ensures (State(), r) == LoadAccount(c, old(State()), db, sc, n, rand)
    {
      hide OpenKey, DeriveKey, Keyring.KeyToManaged;
      ghost var m := State();
      if n in scopes[sc].accounts { return Ok(()); }
      if sc !in db { return Err(ErrScopeNotFound); }
      if n !in db[sc].table.rows { return Err(ErrAccountNotFound); }
      var row := db[sc].table.rows[n];
      var hasPrivateKey := !locked && !watchingOnly;
      var pub := OpenKey(c, cryptoPub, row.pubEnc);
      if pub == None { return Err(ErrCrypto); }
      var priv := if hasPrivateKey then OpenKey(c, cryptoPriv, row.privEnc) else None;
      var index := if row.nextExternal > 0 then row.nextExternal - 1 else 0;
      var key := DeriveKey(c, if hasPrivateKey then priv else pub, EXTERNAL, index);
      if !key.Ok? { return key.PropagateFailure(); }
      var ref := KeyToManaged(c, sc, key.value, Path(n, EXTERNAL, index), priv, rand, 0);
      if !ref.Ok? {
        FailedUnchanged(c, m, sc, key.value, Path(n, EXTERNAL, index), priv, rand, 0);
        return ref.PropagateFailure();
      }
      var a := Account(row.name, row.privEnc, priv, pub.value, row.nextExternal, row.nextInternal, ref.value);
      scopes := scopes[sc := scopes[sc].(accounts := scopes[sc].accounts[n := a])];
      r := Ok(());
    }

    method DeriveFromKeyPath(c: Crypto, db: Db, sc: KeyScope, path: Path, rand: Prng) returns (r: Outcome<nat>)
      requires sc in scopes
      modifies this`heap, this`scopes
      ensures (State(), r) == DeriveAddress(c, old(State()), db, sc, path, rand)
    {
      hide DeriveKey, Keyring.KeyToManaged, LoadAccount;
      var loaded := LoadAccountInfo(c, db, sc, path.account, rand);
      if !loaded.Ok? { return loaded.PropagateFailure(); }
      var a := scopes[sc].accounts[path.account];
      var key := DeriveKey(c, if !locked && !watchingOnly then a.keyPriv else Some(a.keyPub), path.branch, path.index);
      if !key.Ok? { return key.PropagateFailure(); }
      r := KeyToManaged(c, sc, key.value, path, a.keyPriv, rand, 1);
    }

    // ----------------------------------------------------------------- addresses

    method LoadAndCacheAddress(c: Crypto, db: Db, sc: KeyScope, path: Path, rand: Prng) returns (r: Outcome<nat>)
      requires sc in scopes
      modifies this`heap, this`scopes
      ensures (State(), r) == CacheAddress(c, old(State()), db, sc, path, rand)
      ensures sc in scopes
    {
      hide DeriveAddress;
      r := DeriveFromKeyPath(c, db, sc, path, rand);
      if r.Ok? && r.value < |heap| {
        var a := heap[r.value];
        if !KeyType(a.kind) { return Fault; }
        scopes := scopes[sc := scopes[sc].(addrs := scopes[sc].addrs[c.script(a.pubKey, a.kind) := r.value])];
      }
    }

    /** The derivation loop of nextAddresses, at chosen indices. */
    method BuildBatch(c: Crypto, sc: KeyScope, n: uint32, branch: uint32, s: seq<uint32>,
                      rand: Prng) returns (r: Outcome<seq<Address>>)
      requires sc in scopes && n in scopes[sc].accounts
      ensures r == KA.BuildAll(c, State(), sc, scopes[sc].accounts[n], n, branch, s, rand, 1)
    {
      hide NewAddress, DeriveKey;
      var a := scopes[sc].accounts[n];
      var kind := AddrType(scopes[sc].schema, branch);
      var made: seq<Address> := [];
      var k := 0;
      AttachNil(KA.BuildAll(c, State(), sc, a, n, branch, s, rand, 1));
      while k < |s|
        invariant 0 <= k == |made| <= |s|
        invariant Attach(made, KA.BuildAll(c, State(), sc, a, n, branch, s[k..], rand, 1 + k)) ==
                  KA.BuildAll(c, State(), sc, a, n, branch, s, rand, 1)
      {
        assert s[k..][0] == s[k] && s[k..][1..] == s[k + 1..];
        var key := DeriveKey(c, if !locked && !watchingOnly then a.keyPriv else Some(a.keyPub), branch, s[k]);
        if !key.Ok? { return key.PropagateFailure(); }
        var x := MakeAddress(c, sc, kind, key.value, Path(n, branch, s[k]), a.keyPriv, rand, 1 + k);
        if !x.Ok? { return x.PropagateFailure(); }
        AttachMore(made, x.value, KA.BuildAll(c, State(), sc, a, n, branch, s[k + 1..], rand, 2 + k));
        made := made + [x.value];
        k := k + 1;
      }
      assert made + [] == made;
      r := Ok(made);
    }

    /** Reading the stored addresses back, one after the other. */
    method ReadBack(c: Crypto, db: Db, sc: KeyScope, a: Address, rand: Prng) returns (r: Outcome<()>)
      requires sc in scopes
      modifies this`heap, this`scopes
      ensures (State(), r) == KA.ReadBack(c, old(State()), db, sc, a, rand)
      ensures sc in scopes
    {
      hide CacheAddress, KA.Printed;
      var ref := LoadAndCacheAddress(c, db, sc, a.path, rand);
      if !ref.Ok? { return ref.PropagateFailure(); }
      if ref.value < |heap| && KA.Printed(c, heap[ref.value]) != KA.Printed(c, a) {
        var id := c.script(heap[ref.value].pubKey, heap[ref.value].kind);
        scopes := scopes[sc := scopes[sc].(addrs := scopes[sc].addrs - {id})];
        return Err(ErrAddrMismatch);
      }
      r := Ok(());
    }

    method CacheBatch(c: Crypto, db: Db, sc: KeyScope, made: seq<Address>, rand: Prng,
                      from: nat) returns (r: Outcome<()>)
      requires sc in scopes
      modifies this`heap, this`scopes
      ensures (State(), r) == KA.CacheAll(c, old(State()), db, sc, made, rand, from)
      ensures sc in scopes
    {
      hide KA.ReadBack;
      var k := 0;
      assert made[0..] == made;
      while k < |made|
        invariant 0 <= k <= |made| && sc in scopes
        invariant KA.CacheAll(c, State(), db, sc, made[k..], rand, from + 2 * k) ==
                  KA.CacheAll(c, old(State()), db, sc, made, rand, from)
      {
        assert made[k..][0] == made[k] && made[k..][1..] == made[k + 1..];
        r := ReadBack(c, db, sc, made[k], KA.Later(rand, from + 2 * k));
        if !r.Ok? { return; }
        k := k + 1;
      }
      r := Ok(());
    }

    /** One turn of the commit callback's loop. */
    method CommitAddress(c: Crypto, sc: KeyScope, a: Address)
      requires sc in scopes
      modifies this`heap, this`scopes
      ensures State() == KA.CommitOne(c, old(State()), sc, a)
    {
      var ref := |heap|;
      heap := heap + [a];
      if locked && !watchingOnly {
        scopes := scopes[sc := scopes[sc].(queue := scopes[sc].queue + [Entry(ref, a.path.branch, a.path.index)])];
      }
      scopes := scopes[sc := scopes[sc].(addrs := scopes[sc].addrs[c.script(a.pubKey, a.kind) := ref])];
      CommittedState(c, old(State()), State(), sc, a);
    }

    /** The commit callback: every address is cached and, while locked, queued; then the
        account's counter and last address move. */
    method OnCommit(c: Crypto, sc: KeyScope, n: uint32, q: Allocation.Ask, next: uint32, made: seq<Address>)
      requires sc in scopes && n in scopes[sc].accounts
      modifies this`heap, this`scopes
      ensures State() == KA.CommitBatch(c, old(State()), sc, n, q, next, made)
    {
      hide WithAccount, KA.CommitOne, KA.Moved;
      var last := if made == [] then 0 else |heap| + (|made| - 1);
      var moved := KA.Moved(scopes[sc].accounts[n], q, next, last);
      ghost var counted := WithAccount(State(), sc, n, moved);
      scopes := scopes[sc := scopes[sc].(accounts := scopes[sc].accounts[n := moved])];
      assert State() == counted by { CountedState(old(State()), State(), sc, n, moved); }
      var k := 0;
      assert made[0..] == made;
      while k < |made|
        invariant 0 <= k <= |made| && sc in scopes
        invariant KA.CommitAll(c, State(), sc, made[k..]) == KA.CommitAll(c, counted, sc, made)
      {
        assert made[k..][0] == made[k] && made[k..][1..] == made[k + 1..];
        CommitAddress(c, sc, made[k]);
        k := k + 1;
      }
    }

    method NextAddresses(c: Crypto, db: Db, sc: KeyScope, n: uint32, q: Allocation.Ask, rand: Prng) returns (db': Db,
                         r: Outcome<seq<nat>>)
      requires sc in scopes
      modifies this`heap, this`scopes
      ensures (State(), db', r) == KA.NextAddresses(c, old(State()), db, sc, n, q, rand)
    {
      hide LoadAccount, KA.BuildAll, KA.CacheAll, KA.CommitBatch, Allocation.First, Allocation.OverLimit;
      db' := db;
      var loaded := LoadAccountInfo(c, db, sc, n, rand);
      if !loaded.Ok? { return db, loaded.PropagateFailure(); }
      var a := scopes[sc].accounts[n];
      var acctKey := if !locked && !watchingOnly then a.keyPriv else Some(a.keyPub);
      if acctKey == None { return db, Fault; }
      var from := if q.internal then a.nextInternal else a.nextExternal;
      if Allocation.OverLimit(from, q.num) { return db, Err(ErrTooManyAddresses); }
      var branchKey := c.child(acctKey.value, Allocation.Branch(q));
      if !branchKey.Child? { return db, Err(ErrKeyChain); }
      var s, _ := Allocation.ChooseIndices(c, branchKey.key, from, q.num);
      if !s.Ok? { return db, s.PropagateFailure(); }
      var made := BuildBatch(c, sc, n, Allocation.Branch(q), s.value, rand);
      if !made.Ok? { return db, made.PropagateFailure(); }
      db', r := StoreBatch(c, db, sc, n, q, s.value, made.value, rand);
    }

    method StoreBatch(c: Crypto, db: Db, sc: KeyScope, n: uint32, q: Allocation.Ask, s: seq<uint32>,
                      made: seq<Address>, rand: Prng)
      returns (db': Db, r: Outcome<seq<nat>>)
      requires sc in scopes
      modifies this`heap, this`scopes
      ensures (State(), db', r) == KA.StoreBatch(c, old(State()), db, sc, n, q, s, made, rand)
    {
      hide KA.CacheAll, KA.CommitBatch, KA.MoveRow;
      if s == [] || !KeyType(AddrType(scopes[sc].schema, Allocation.Branch(q))) { return db, Fault; }
      if sc !in db || n !in db[sc].table.rows { return db, Err(ErrDatabase); }
      var back := CacheBatch(c, db, sc, made, rand, 1 + |made|);
      if !back.Ok? { return db, back.PropagateFailure(); }
      if n !in scopes[sc].accounts { return db, Fault; }
      var base := |heap|;
      var refs := seq(|made|, i => base + i);
      assert refs == KA.Refs(State(), made);
      r := Ok(refs);
      OnCommit(c, sc, n, q, (s[|s| - 1] + 1) % W32, made);
      db' := KA.MoveRow(db, sc, n, Allocation.Branch(q), s);
    }

    // ---------------------------------------------------------------------- lock

    /** The inner loop of lock(): drop every cached account key of one scope. */
    method LockAccounts(sc: KeyScope)
      requires sc in scopes
      modifies this`scopes
      ensures scopes == old(scopes)[sc := LockScoped(old(scopes)[sc])]
    {
      var s := scopes[sc];
      var todo := s.accounts.Keys;
      while todo != {}
        invariant todo <= s.accounts.Keys && scopes.Keys == old(scopes).Keys
        invariant forall t :: t in scopes && t != sc ==> scopes[t] == old(scopes)[t]
        invariant scopes[sc] == s.(accounts := scopes[sc].accounts) && scopes[sc].accounts.Keys == s.accounts.Keys
        invariant forall n :: n in s.accounts ==>
                    scopes[sc].accounts[n] == if n in todo then s.accounts[n] else s.accounts[n].(keyPriv := None)
        decreases |todo|
      {
        var n :| n in todo;
        var a := scopes[sc].accounts[n];
        scopes := scopes[sc := scopes[sc].(accounts := scopes[sc].accounts[n := a.(keyPriv := None)])];
        todo := todo - {n};
      }
      assert scopes[sc].accounts == LockScoped(s).accounts;
    }

    /** The second inner loop: clear every cached address of one scope. */
    method LockAddresses(sc: KeyScope)
      requires sc in scopes
      requires forall id :: id in scopes[sc].addrs ==> scopes[sc].addrs[id] < |heap|
      modifies this`heap
      ensures |heap| == |old(heap)|
      ensures forall i :: 0 <= i < |heap| ==>
                heap[i] == if CachedBy(scopes[sc].addrs, i) then LockAddress(old(heap)[i]) else old(heap)[i]
    {
      var addrs := scopes[sc].addrs;
      var todo := addrs.Keys;
      ghost var done: set<nat> := {};
      while todo != {}
        invariant todo <= addrs.Keys && |heap| == |old(heap)|
        invariant forall i :: i in done ==> CachedBy(addrs, i)
        invariant forall id :: id in addrs && id !in todo ==> addrs[id] in done
        invariant forall i :: 0 <= i < |heap| ==>
                    heap[i] == if i in done then LockAddress(old(heap)[i]) else old(heap)[i]
        decreases |todo|
      {
        var id :| id in todo;
        heap := heap[addrs[id] := LockAddress(heap[addrs[id]])];
        done := done + {addrs[id]};
        todo := todo - {id};
      }
    }

    method LockAllAccounts()
      modifies this`scopes
      ensures scopes == LockedScopes(old(scopes))
    {
      var todo := scopes.Keys;
      while todo != {}
        invariant todo <= scopes.Keys == old(scopes).Keys
        invariant forall sc :: sc in scopes ==>
                    scopes[sc] == if sc in todo then old(scopes)[sc] else LockScoped(old(scopes)[sc])
        decreases |todo|
      {
        var sc :| sc in todo;
        LockAccounts(sc);
        todo := todo - {sc};
      }
    }

    method LockAllAddresses()
      requires CachesWithin(scopes, |heap|)
      modifies this`heap
      ensures ClearedAmong(scopes, scopes.Keys, old(heap), heap)
    {
      var todo := scopes.Keys;
      while todo != {}
        invariant todo <= scopes.Keys && ClearedAmong(scopes, scopes.Keys - todo, old(heap), heap)
        decreases |todo|
      {
        var sc :| sc in todo;
        ghost var before := heap;
        LockAddresses(sc);
        forall i | 0 <= i < |heap|
          ensures CachedAmong(scopes, scopes.Keys - (todo - {sc}), i) <==>
                  CachedAmong(scopes, scopes.Keys - todo, i) || CachedBy(scopes[sc].addrs, i)
        {
          OneMoreScope(scopes, todo, sc, i);
        }
        todo := todo - {sc};
      }
      assert scopes.Keys - todo == scopes.Keys;
    }

    /** lock(). */
    method LockUp()
      requires Structured(State())
      modifies this
      ensures State() == LockOf(old(State()))
    {
      hide Structured, LockedHeap, LockedScopes, CachesWithin, ClearedAmong;
      ghost var pre := State();
      LockAllAccounts();
      CachesAfterLock(pre);
      LockAllAddresses();
      HeapAfterLock(pre, heap);
      cryptoScript := Zeros(KEY_SIZE);
      cryptoPriv := Zeros(KEY_SIZE);
      master := Zeros(KEY_SIZE);
      hashed := Zeros(64);
      locked := true;
    }

    /** Lock(): refused on a watching-only or locked manager, and otherwise nothing private is
        left in the manager, its accounts and its cached addresses. */
    method Lock() returns (r: Outcome<()>)
      requires Structured(State())
      modifies this
      ensures (State(), r) == Keyring.Lock(old(State()))
      ensures r == if old(watchingOnly) then Err(ErrWatchingOnly) else if old(locked) then Err(ErrLocked) else Ok(())
      ensures !r.Ok? ==> State() == old(State())
      ensures r.Ok? ==>
                && locked && master == cryptoPriv == cryptoScript == Zeros(32) && hashed == Zeros(64)
                && (forall sc, n :: sc in scopes && n in scopes[sc].accounts ==> scopes[sc].accounts[n].keyPriv == None)
                && (forall sc, id :: sc in scopes && id in scopes[sc].addrs && scopes[sc].addrs[id] < |heap| ==>
                      heap[scopes[sc].addrs[id]].privCT == [])
    {
      hide Structured, LockOf;
      LockSpelled(State());
      if watchingOnly {
        return Err(ErrWatchingOnly);
      }
      if locked {
        return Err(ErrLocked);
      }
      LockUp();
      r := Ok(());
    }

    // -------------------------------------------------------------------- unlock

    /** append(m.privPassphraseSalt[:], passphrase...): with an empty passphrase the result
        is the salt's own array. */
    method Salted(pass: Bytes) returns (s: array<byte>)
      ensures s[..] == salt[..] + pass
      ensures pass == [] ==> s == salt
      ensures pass != [] ==> fresh(s)
    {
      if pass == [] {
        assert salt[..] + pass == salt[..];
        return salt;
      }
      s := new byte[salt.Length + |pass|](i => 0);
      var at := CopyAt(s, 0, salt[..]);
      at := CopyAt(s, at, pass);
      assert s[..at] == s[..] && [] + salt[..] == salt[..];
    }

    /** Hash the salted passphrase and clear the concatenation. */
    method HashPassphrase(c: Crypto, pass: Bytes) returns (h: Bytes)
      modifies salt
      ensures h == c.sha512(old(salt[..]) + pass)
      ensures salt[..] == WipedSalt(old(salt[..]), pass)
    {
      var salted := Salted(pass);
      h := c.sha512(salted[..]);
      ZeroBytes(salted);
    }

    /** The first inner loop of Unlock: open the account keys of one scope. */
    method UnlockAccounts(c: Crypto, sc: KeyScope, ghost pre: Mgr) returns (r: Outcome<()>)
      requires Structured(pre) && Drained(c, cryptoPriv, pre, State()) && sc in scopes
      modifies this`scopes
      ensures Drained(c, cryptoPriv, pre, State())
      ensures scopes.Keys == old(scopes).Keys && scopes[sc].queue == old(scopes)[sc].queue
      ensures forall t :: t in scopes && t != sc ==> scopes[t] == old(scopes)[t]
      ensures r.Ok? ==> OpenedScope(c, cryptoPriv, scopes[sc])
      ensures !r.Ok? ==>
                r.Err? && sc in pre.scopes && AccountObstacle(c, cryptoPriv, pre.scopes[sc], r.code)
    {
      hide Structured, Drained, SameAccounts, OpenKey;
      ghost var start := State();
      SameAt(c, cryptoPriv, pre, start, sc);
      var todo := scopes[sc].accounts.Keys;
      while todo != {}
        invariant scopes.Keys == old(scopes).Keys && todo <= scopes[sc].accounts.Keys
        invariant scopes[sc].queue == old(scopes)[sc].queue
        invariant forall t :: t in scopes && t != sc ==> scopes[t] == old(scopes)[t]
        invariant SameAccounts(pre.scopes[sc], scopes[sc])
        invariant forall n :: n in scopes[sc].accounts && n !in todo ==>
                  OpenedAccount(c, cryptoPriv, scopes[sc].accounts[n])
        decreases |todo|
      {
        var n :| n in todo;
        var a := scopes[sc].accounts[n];
        SameAccountAt(pre.scopes[sc], scopes[sc], n);
        OpenKeySteps(c, cryptoPriv, a.keyEnc);
        var decrypted := Decrypt(c, cryptoPriv, a.keyEnc);
        if decrypted == None {
          DrainedAccounts(c, cryptoPriv, pre, start, State(), sc);
          return Err(ErrCrypto);
        }
        var key := c.parse(decrypted.value);
        if key == None {
          DrainedAccounts(c, cryptoPriv, pre, start, State(), sc);
          return Err(ErrKeyChain);
        }
        OpenOne(pre.scopes[sc], scopes[sc], n, key);
        scopes := scopes[sc := scopes[sc].(accounts := scopes[sc].accounts[n := a.(keyPriv := key)])];
        todo := todo - {n};
      }
      DrainedAccounts(c, cryptoPriv, pre, start, State(), sc);
      r := Ok(());
    }

    /** One turn of the second inner loop: derive and seal the private key of a queued
        address. */
    method DeriveQueued(c: Crypto, sc: KeyScope, info: Entry, rand: Prng, from: nat, ghost pre: Mgr, ghost i: nat)
      returns (r: Outcome<()>, next: nat)
      requires Lawful(c) && Structured(pre) && Drained(c, cryptoPriv, pre, State())
      requires sc in scopes && sc in pre.scopes && i < |pre.scopes[sc].queue| && info == pre.scopes[sc].queue[i]
      requires OpenedScope(c, cryptoPriv, scopes[sc]) && from < QueueTotal(pre)
      modifies this`heap
      ensures r.Ok? ==> next == from + 1 && Nonce(rand, from).Some?
      ensures !r.Ok? ==> heap == old(heap) && r.Err? && Obstacle(c, cryptoPriv, pre, rand, r.code)
      ensures |pre.heap| == |heap| && info.addr < |heap| == |old(heap)|
      ensures pre.heap[info.addr].scope in pre.scopes
      ensures pre.heap[info.addr].path.account in pre.scopes[pre.heap[info.addr].scope].accounts
      ensures r.Ok? ==>
                && heap == old(heap)[info.addr := heap[info.addr]]
                && Filled(c, cryptoPriv, SealedKeyOf(pre, pre.heap[info.addr]), old(heap)[info.addr], heap[info.addr])
    {
      hide Lawful, Structured, Drained, Obstacle, OpenKey, DeriveKey, Filled, QueueTotal, Nonce;
      next := from;
      EntryFacts(c, cryptoPriv, pre, State(), sc, i);
      var acct := scopes[sc].accounts[heap[info.addr].path.account];
      var key := DeriveKey(c, acct.keyPriv, info.branch, info.index);
      if !key.Ok? {
        StuckIsObstacle(c, cryptoPriv, pre, State(), sc, i, rand);
        return key.PropagateFailure(), next;
      }
      var d := c.scalar(key.value);
      var sealed := SealWith(c, cryptoPriv, d, rand, next);
      if !sealed.Ok? {
        NonceIsObstacle(c, cryptoPriv, pre, rand, next);
        return Err(ErrCrypto), next;
      }
      next := next + 1;
      FilledNow(c, cryptoPriv, SealedKeyOf(pre, pre.heap[info.addr]), heap[info.addr], acct, sealed.value);
      heap := heap[info.addr := heap[info.addr].(privEnc := sealed.value, privCT := d)];
      r := Ok(());
    }

    /** The second inner loop: derive the queued addresses.  The slice is ranged over while
        its head is set to nil and cut off; entry i is read before it is cleared, so the
        loop sees exactly the queue it started with. */
    method DrainQueue(c: Crypto, sc: KeyScope, rand: Prng, from: nat, ghost pre: Mgr)
      returns (r: Outcome<()>, next: nat)
      requires Lawful(c) && Structured(pre) && Drained(c, cryptoPriv, pre, State())
      requires sc in scopes && scopes[sc].queue == pre.scopes[sc].queue && OpenedScope(c, cryptoPriv, scopes[sc])
      requires from + |scopes[sc].queue| <= QueueTotal(pre) && NoncesFor(rand, from)
      modifies this`scopes, this`heap
      ensures Drained(c, cryptoPriv, pre, State())
      ensures scopes.Keys == old(scopes).Keys && scopes[sc].accounts == old(scopes)[sc].accounts
      ensures forall t :: t in scopes && t != sc ==> scopes[t] == old(scopes)[t]
      ensures r.Ok? ==> scopes[sc].queue == [] && next == from + |old(scopes)[sc].queue| && NoncesFor(rand, next)
      ensures !r.Ok? ==> r.Err? && Obstacle(c, cryptoPriv, pre, rand, r.code)
    {
      hide Lawful, Structured, Drained, Obstacle, OpenedScope, SealedKeyOf, Filled, QueueTotal, Nonce;
      SameAt(c, cryptoPriv, pre, State(), sc);
      var snapshot := scopes[sc].queue;
      var backing := new Option<Entry>[|snapshot|](i requires 0 <= i < |snapshot| => Some(snapshot[i]));
      var head, i := 0, 0;
      next := from;
      while i < |snapshot|
        invariant 0 <= i == head <= |snapshot| && next == from + i && NoncesFor(rand, next)
        invariant forall j :: i <= j < |snapshot| ==> backing[j] == Some(snapshot[j])
        invariant scopes.Keys == old(scopes).Keys && scopes[sc].accounts == old(scopes)[sc].accounts
        invariant forall t :: t in scopes && t != sc ==> scopes[t] == old(scopes)[t]
        invariant scopes[sc].queue == snapshot[i..]
        invariant Drained(c, cryptoPriv, pre, State())
      {
        var info := backing[i].value;
        ghost var mid := State();
        StillOpened(c, cryptoPriv, old(scopes)[sc], scopes[sc]);
        r, next := DeriveQueued(c, sc, info, rand, next, pre, i);
        if !r.Ok? {
          DrainedFrame(c, cryptoPriv, pre, mid, State());
          return;
        }
        backing[head] := None;
        head := head + 1;
        scopes := scopes[sc := scopes[sc].(queue := snapshot[head..])];
        DrainOne(c, cryptoPriv, pre, mid, State(), sc, i);
        i := i + 1;
      }
      r := Ok(());
    }

    /** Both inner loops for one scope; stops at the first obstacle. */
    method UnlockScope(c: Crypto, sc: KeyScope, rand: Prng, from: nat, ghost pre: Mgr)
      returns (r: Outcome<()>, next: nat)
      requires Lawful(c) && Structured(pre) && Drained(c, cryptoPriv, pre, State())
      requires sc in scopes && sc in pre.scopes && scopes[sc] == pre.scopes[sc]
      requires from + |pre.scopes[sc].queue| <= QueueTotal(pre) && NoncesFor(rand, from)
      modifies this`scopes, this`heap
      ensures Drained(c, cryptoPriv, pre, State())
      ensures scopes.Keys == old(scopes).Keys && forall t :: t in scopes && t != sc ==> scopes[t] == old(scopes)[t]
      ensures r.Ok? ==> OpenedScope(c, cryptoPriv, scopes[sc]) && scopes[sc].queue == []
      ensures r.Ok? ==> next == from + |pre.scopes[sc].queue| && NoncesFor(rand, next)
      ensures !r.Ok? ==> r.Err? && Obstacle(c, cryptoPriv, pre, rand, r.code)
    {
      hide Lawful, Structured, Drained, OpenKey, OpenedScope, Obstacle, QueueTotal, NoncesFor;
      next := from;
      r := UnlockAccounts(c, sc, pre);
      if !r.Ok? {
        AccountIsObstacle(c, cryptoPriv, pre, sc, rand, r.code);
        return;
      }
      ghost var before := scopes[sc];
      r, next := DrainQueue(c, sc, rand, from, pre);
      if r.Ok? {
        StillOpened(c, cryptoPriv, before, scopes[sc]);
      }
    }

    method UnlockScopes(c: Crypto, rand: Prng, ghost pre: Mgr) returns (r: Outcome<()>)
      requires Lawful(c) && Structured(pre) && Drained(c, cryptoPriv, pre, State()) && scopes == pre.scopes
      modifies this`scopes, this`heap
      ensures Drained(c, cryptoPriv, pre, State())
      ensures r.Ok? ==> NoncesFor(rand, QueueTotal(pre))
      ensures r.Ok? ==> AccountsOpen(c, cryptoPriv, scopes) && forall sc :: sc in scopes ==> scopes[sc].queue == []
      ensures !r.Ok? ==> r.Err? && Obstacle(c, cryptoPriv, pre, rand, r.code)
    {
      hide Lawful, Structured, Drained, OpenedScope, Obstacle, AccountsOpen, Entries, NoncesFor, QueueTotal, OpenedBut;
      var todo := scopes.Keys;
      NoneOpened(c, cryptoPriv, scopes);
      var at := 0;
      NoEntries(pre, rand, pre.scopes.Keys - todo);
      while todo != {}
        invariant OpenedBut(c, cryptoPriv, pre.scopes, scopes, todo)
        invariant at == |Entries(pre.scopes, pre.scopes.Keys - todo)| && NoncesFor(rand, at)
        invariant Drained(c, cryptoPriv, pre, State())
        decreases |todo|
      {
        var sc :| sc in todo;
        ghost var before := scopes;
        StillClosed(c, cryptoPriv, pre.scopes, scopes, todo, sc);
        MoreEntries(pre, todo, sc);
        r, at := UnlockScope(c, sc, rand, at, pre);
        if !r.Ok? {
          return;
        }
        OneMoreOpened(c, cryptoPriv, pre.scopes, before, scopes, todo, sc);
        todo := todo - {sc};
      }
      assert pre.scopes.Keys - todo == pre.scopes.Keys;
      AllOpened(c, cryptoPriv, pre.scopes, scopes);
      r := Ok(());
    }

    method Unlock(c: Crypto, pass: Bytes, rand: Prng) returns (r: Outcome<()>)
      requires Lawful(c) && Structured(State())
      modifies this, salt
      ensures Unlocks(c, old(State()), pass, rand, State(), r)
    {
      hide Lawful, Structured, Drained, LockOf, Obstacle, AccountsOpen, Decrypt;
      ghost var pre := State();
      if watchingOnly {
        return Err(ErrWatchingOnly);
      }
      if !locked {
        var h := HashPassphrase(c, pass);
        if h != hashed {
          WipedStructured(pre, pass);
          LockUp();
          return Err(ErrWrongPassphrase);
        }
        return Ok(());
      }
      var (k, err) := DeriveKeySpec(c, params, pass);
      if k.Some? {
        master := k.value;
      }
      if err.Some? {
        RelockFrom(pre, State());
        LockUp();
        return Err(if err.value.InvalidPassword? then ErrWrongPassphrase else ErrCrypto);
      }
      var decrypted := Decrypt(c, master, cryptoPrivEnc);
      if decrypted == None {
        RelockFrom(pre, State());
        LockUp();
        return Err(ErrCrypto);
      }
      r := OpenHierarchy(c, pass, decrypted.value, rand, pre);
    }

    /** Past the master key: the crypto key, every scope, and at last the hash. */
    method OpenHierarchy(c: Crypto, pass: Bytes, decrypted: Bytes, rand: Prng, ghost pre: Mgr) returns (r: Outcome<()>)
      requires Lawful(c) && Structured(pre) && pre.locked && State() == pre.(master := master)
      modifies this, salt
      ensures OpensWith(c, pre, pass, old(master), CopyInto(pre.cryptoPriv, decrypted), rand, State(), r)
    {
      hide Lawful, Structured, Drained, LockOf, Obstacle, AccountsOpen;
      Sizes(pre);
      cryptoPriv := CopyInto(cryptoPriv, decrypted);
      DrainedStart(c, cryptoPriv, pre, State());
      r := UnlockScopes(c, rand, pre);
      if !r.Ok? {
        RelockDrained(c, cryptoPriv, pre, State());
        LockUp();
        return;
      }
      ghost var drained := State();
      locked := false;
      hashed := HashPassphrase(c, pass);
      DrainedFrame(c, cryptoPriv, pre, drained, State());
    }
  }

  // ------------------------------------------------------------------- batches

  function Attach(made: seq<Address>, rest: Outcome<seq<Address>>): Outcome<seq<Address>> {
    match rest
    case Ok(s) => Ok(made + s)
    case other => other
  }

  lemma AttachNil(rest: Outcome<seq<Address>>)
    ensures Attach([], rest) == rest
  {
    if rest.Ok? { assert [] + rest.value == rest.value; }
  }

  lemma AttachMore(made: seq<Address>, x: Address, rest: Outcome<seq<Address>>)
    ensures Attach(made + [x], rest) == Attach(made, match rest case Ok(s) => Ok([x] + s) case other => other)
  {
    if rest.Ok? { assert (made + [x]) + rest.value == made + ([x] + rest.value); }
  }

  lemma CountedState(m: Mgr, m': Mgr, sc: KeyScope, n: uint32, a: Account)
    requires sc in m.scopes
    requires m' == m.(scopes := m.scopes[sc := m.scopes[sc].(accounts := m.scopes[sc].accounts[n := a])])
    ensures m' == WithAccount(m, sc, n, a)
  {
  }

  lemma CommittedState(c: Crypto, m: Mgr, m': Mgr, sc: KeyScope, a: Address)
    requires sc in m.scopes && m' == m.(heap := m.heap + [a], scopes := m'.scopes) && m'.scopes.Keys == m.scopes.Keys
    requires forall t :: t in m.scopes && t != sc ==> m'.scopes[t] == m.scopes[t]
    requires var s := m.scopes[sc];
             var e := Entry(|m.heap|, a.path.branch, a.path.index);
             m'.scopes[sc] == s.(queue := if m.locked && !m.watchingOnly then s.queue + [e] else s.queue,
                                 addrs := s.addrs[c.script(a.pubKey, a.kind) := |m.heap|])
    ensures m' == KA.CommitOne(c, m, sc, a)
  {
    assert m'.scopes == KA.CommitOne(c, m, sc, a).scopes;
  }

  // -------------------------------------------------------------- caches, keys

  lemma FailedUnchanged(c: Crypto, m: Mgr, sc: KeyScope, key: ExtKey, path: Path, acctPriv: Option<ExtKey>, rand: Prng,
                        i: nat)
    requires sc in m.scopes && !Keyring.KeyToManaged(c, m, sc, key, path, acctPriv, rand, i).1.Ok?
    ensures Keyring.KeyToManaged(c, m, sc, key, path, acctPriv, rand, i).0 == m
  {
  }

  lemma OneMoreScope(scopes: map<KeyScope, Scoped>, todo: set<KeyScope>, sc: KeyScope, i: nat)
    requires sc in todo && todo <= scopes.Keys
    ensures CachedAmong(scopes, scopes.Keys - (todo - {sc}), i) <==>
            CachedAmong(scopes, scopes.Keys - todo, i) || CachedBy(scopes[sc].addrs, i)
  {
    hide CachedBy;
  }

  /** Every cached address is on the heap. */
  ghost predicate CachesWithin(scopes: map<KeyScope, Scoped>, n: nat) {
    forall sc, id :: sc in scopes && id in scopes[sc].addrs ==> scopes[sc].addrs[id] < n
  }

  /** Exactly the addresses cached by some of the scopes are cleared. */
  ghost predicate ClearedAmong(scopes: map<KeyScope, Scoped>, some: set<KeyScope>, was: seq<Address>,
                               now: seq<Address>) {
    && |now| == |was|
    && forall i :: 0 <= i < |now| ==> now[i] == if CachedAmong(scopes, some, i) then LockAddress(was[i]) else was[i]
  }

  lemma LockSpelled(m: Mgr)
    ensures var l := LockOf(m);
            && l.locked && l.master == l.cryptoPriv == l.cryptoScript == Zeros(32) && l.hashed == Zeros(64)
            && (forall sc, n :: sc in l.scopes && n in l.scopes[sc].accounts ==>
                  l.scopes[sc].accounts[n].keyPriv == None)
            && (forall sc, id :: sc in l.scopes && id in l.scopes[sc].addrs && l.scopes[sc].addrs[id] < |l.heap| ==>
                  l.heap[l.scopes[sc].addrs[id]].privCT == [])
  {
    hide LockedHeap, InCache;
    LockedCachesClear(m);
    LockFacts(m);
    forall sc | sc in m.scopes
      ensures forall n :: n in LockOf(m).scopes[sc].accounts ==> LockOf(m).scopes[sc].accounts[n].keyPriv == None
    {
      LockedScopeFacts(m, sc);
    }
  }

  /** Dropping account keys leaves the address caches alone. */
  lemma CachesAfterLock(m: Mgr)
    requires Structured(m)
    ensures LockedScopes(m.scopes).Keys == m.scopes.Keys
    ensures forall sc :: sc in m.scopes ==> LockedScopes(m.scopes)[sc].addrs == m.scopes[sc].addrs
    ensures CachesWithin(LockedScopes(m.scopes), |m.heap|)
  {
    hide EntryCached;
  }

  lemma HeapAfterLock(m: Mgr, heap: seq<Address>)
    requires Structured(m) && ClearedAmong(LockedScopes(m.scopes), LockedScopes(m.scopes).Keys, m.heap, heap)
    ensures heap == LockedHeap(m)
  {
    hide Structured, LockedScopes, CachedAmong;
    CachesAfterLock(m);
    forall i | 0 <= i < |heap| ensures heap[i] == LockedHeap(m)[i] {
      SameCaches(m.scopes, LockedScopes(m.scopes), i);
    }
  }

  lemma SameCaches(a: map<KeyScope, Scoped>, b: map<KeyScope, Scoped>, i: nat)
    requires a.Keys == b.Keys && forall sc :: sc in a ==> a[sc].addrs == b[sc].addrs
    ensures CachedAmong(a, a.Keys, i) <==> CachedAmong(b, b.Keys, i)
  {
    hide CachedBy;
  }

  ghost predicate OpenedAccount(c: Crypto, ck: Bytes, a: Account) {
    a.keyPriv.Some? && a.keyPriv == OpenKey(c, ck, a.keyEnc)
  }

  ghost predicate OpenedScope(c: Crypto, ck: Bytes, s: Scoped) {
    forall n :: n in s.accounts ==> OpenedAccount(c, ck, s.accounts[n])
  }

  /** All scopes but those still to do are open, with empty queues. */
  ghost predicate OpenedBut(c: Crypto, ck: Bytes, was: map<KeyScope, Scoped>, now: map<KeyScope, Scoped>,
                            todo: set<KeyScope>) {
    && todo <= now.Keys == was.Keys
    && (forall sc :: sc in todo ==> now[sc] == was[sc])
    && (forall sc :: sc in now && sc !in todo ==> OpenedScope(c, ck, now[sc]) && now[sc].queue == [])
  }

  lemma NoneOpened(c: Crypto, ck: Bytes, scopes: map<KeyScope, Scoped>)
    ensures OpenedBut(c, ck, scopes, scopes, scopes.Keys)
  {
  }

  lemma StillClosed(c: Crypto, ck: Bytes, was: map<KeyScope, Scoped>, now: map<KeyScope, Scoped>, todo: set<KeyScope>,
                    sc: KeyScope)
    requires OpenedBut(c, ck, was, now, todo) && sc in todo
    ensures todo <= now.Keys == was.Keys && now[sc] == was[sc]
  {
  }

  lemma OneMoreOpened(c: Crypto, ck: Bytes, was: map<KeyScope, Scoped>, now: map<KeyScope, Scoped>,
                      next: map<KeyScope, Scoped>, todo: set<KeyScope>, sc: KeyScope)
    requires OpenedBut(c, ck, was, now, todo) && sc in todo && next.Keys == now.Keys
    requires forall t :: t in next && t != sc ==> next[t] == now[t]
    requires OpenedScope(c, ck, next[sc]) && next[sc].queue == []
    ensures OpenedBut(c, ck, was, next, todo - {sc})
  {
    hide OpenedScope;
  }

  lemma SameSealed(a: Account, b: Account)
    requires b.(keyPriv := None) == a.(keyPriv := None)
    ensures b.keyEnc == a.keyEnc
  {
    assert b.(keyPriv := None).keyEnc == b.keyEnc;
  }

  lemma OpenKeySteps(c: Crypto, ck: Bytes, blob: Bytes)
    ensures OpenKey(c, ck, blob) == match Decrypt(c, ck, blob) case None => None case Some(t) => c.parse(t)
  {
  }

  // ---------------------------------------------------------------- draining

  lemma DrainedFrame(c: Crypto, ck: Bytes, pre: Mgr, a: Mgr, b: Mgr)
    requires Structured(pre) && Drained(c, ck, pre, a) && b.scopes == a.scopes && b.heap == a.heap
    ensures Drained(c, ck, pre, b)
  {
    hide Structured, SameAccounts, HeapFilled, PoppedFilled, IsSuffix;
  }

  lemma DrainedStart(c: Crypto, ck: Bytes, pre: Mgr, now: Mgr)
    requires Structured(pre) && now.scopes == pre.scopes && now.heap == pre.heap
    ensures Drained(c, ck, pre, now)
  {
    hide Structured, Filled;
  }

  lemma SameAt(c: Crypto, ck: Bytes, pre: Mgr, now: Mgr, sc: KeyScope)
    requires Structured(pre) && Drained(c, ck, pre, now) && sc in now.scopes
    ensures sc in pre.scopes && SameAccounts(pre.scopes[sc], now.scopes[sc])
  {
    hide Structured, SameAccounts, HeapFilled, PoppedFilled, IsSuffix;
  }

  lemma SameAccountAt(s: Scoped, t: Scoped, n: uint32)
    requires SameAccounts(s, t) && n in t.accounts
    ensures n in s.accounts && t.accounts[n].keyEnc == s.accounts[n].keyEnc
  {
    SameSealed(s.accounts[n], t.accounts[n]);
  }

  lemma OpenOne(s: Scoped, t: Scoped, n: uint32, key: Option<ExtKey>)
    requires SameAccounts(s, t) && n in t.accounts
    ensures SameAccounts(s, t.(accounts := t.accounts[n := t.accounts[n].(keyPriv := key)]))
  {
  }

  lemma DrainedAccounts(c: Crypto, ck: Bytes, pre: Mgr, a: Mgr, b: Mgr, sc: KeyScope)
    requires Structured(pre) && Drained(c, ck, pre, a) && b.heap == a.heap && b.scopes.Keys == a.scopes.Keys
    requires sc in a.scopes
    requires forall t :: t in a.scopes && t != sc ==> b.scopes[t] == a.scopes[t]
    requires b.scopes[sc].queue == a.scopes[sc].queue && sc in pre.scopes && SameAccounts(pre.scopes[sc], b.scopes[sc])
    ensures Drained(c, ck, pre, b)
  {
    hide Structured, SameAccounts, HeapFilled, PoppedFilled, IsSuffix;
    forall t | t in pre.scopes ensures b.scopes[t].queue == a.scopes[t].queue
      && SameAccounts(pre.scopes[t], b.scopes[t]) {}
  }

  /** The next entry's address and account, at any point of the drain. */
  lemma EntryFacts(c: Crypto, ck: Bytes, pre: Mgr, mid: Mgr, sc: KeyScope, i: nat)
    requires Structured(pre) && Drained(c, ck, pre, mid) && sc in mid.scopes && i < |pre.scopes[sc].queue|
    ensures var e := pre.scopes[sc].queue[i];
            && EntryCached(pre, sc, e)
            && |mid.heap| == |pre.heap|
            && mid.heap[e.addr].scope == sc && mid.heap[e.addr].path == pre.heap[e.addr].path
            && pre.heap[e.addr].path.account in mid.scopes[sc].accounts
            && mid.scopes[sc].accounts[pre.heap[e.addr].path.account].keyEnc == SealedKeyOf(pre, pre.heap[e.addr])
  {
    hide PoppedFilled, IsSuffix, DeriveKey, OpenKey, Decrypt;
    var e := pre.scopes[sc].queue[i];
    assert EntryCached(pre, sc, e);
    assert SameAccounts(pre.scopes[sc], mid.scopes[sc]);
    var n := pre.heap[e.addr].path.account;
    SameSealed(pre.scopes[sc].accounts[n], mid.scopes[sc].accounts[n]);
  }

  lemma StuckIsObstacle(c: Crypto, ck: Bytes, pre: Mgr, mid: Mgr, sc: KeyScope, i: nat, rand: Prng)
    requires Structured(pre) && Drained(c, ck, pre, mid) && sc in mid.scopes && i < |pre.scopes[sc].queue|
    requires OpenedScope(c, ck, mid.scopes[sc])
    requires pre.scopes[sc].queue[i].addr < |mid.heap|
    requires var e := pre.scopes[sc].queue[i];
             mid.heap[e.addr].path.account in mid.scopes[sc].accounts &&
             !DeriveKey(c, mid.scopes[sc].accounts[mid.heap[e.addr].path.account].keyPriv, e.branch, e.index).Ok?
    ensures Obstacle(c, ck, pre, rand, ErrKeyChain)
    ensures var e := pre.scopes[sc].queue[i];
            DeriveKey(c, mid.scopes[sc].accounts[mid.heap[e.addr].path.account].keyPriv, e.branch, e.index) ==
            Err(ErrKeyChain)
  {
    hide Structured, Drained, OpenKey, DeriveKey;
    EntryFacts(c, ck, pre, mid, sc, i);
    var e := pre.scopes[sc].queue[i];
    var n := mid.heap[e.addr].path.account;
    assert OpenedAccount(c, ck, mid.scopes[sc].accounts[n]);
    assert EntryStuck(c, ck, pre, e);
    DeriveErr(c, mid.scopes[sc].accounts[n].keyPriv, e.branch, e.index);
  }

  lemma DeriveErr(c: Crypto, k: Option<ExtKey>, branch: uint32, index: uint32)
    requires k.Some? && !DeriveKey(c, k, branch, index).Ok?
    ensures DeriveKey(c, k, branch, index) == Err(ErrKeyChain)
  {
  }

  lemma StillOpened(c: Crypto, ck: Bytes, s: Scoped, t: Scoped)
    requires OpenedScope(c, ck, s) && t.accounts == s.accounts
    ensures OpenedScope(c, ck, t)
  {
  }

  lemma AllOpened(c: Crypto, ck: Bytes, was: map<KeyScope, Scoped>, scopes: map<KeyScope, Scoped>)
    requires OpenedBut(c, ck, was, scopes, {})
    ensures AccountsOpen(c, ck, scopes) && forall sc :: sc in scopes ==> scopes[sc].queue == []
  {
    hide OpenKey;
    forall sc, n | sc in scopes && n in scopes[sc].accounts ensures OpenedAccount(c, ck, scopes[sc].accounts[n]) {
      assert OpenedScope(c, ck, scopes[sc]);
    }
  }

  // ---------------------------------------------------------- counting the queue

  ghost function EntriesOf(sc: KeyScope, n: nat): set<(KeyScope, int)> { set i | 0 <= i < n :: (sc, i) }

  lemma {:induction false} EntriesOfSize(sc: KeyScope, n: nat)
    ensures |EntriesOf(sc, n)| == n
  {
    if n > 0 {
      EntriesOfSize(sc, n - 1);
      assert EntriesOf(sc, n) == EntriesOf(sc, n - 1) + {(sc, n - 1)};
    }
  }

  lemma NoEntries(m: Mgr, rand: Prng, none: set<KeyScope>)
    requires none == {}
    ensures |Entries(m.scopes, none)| == 0 && NoncesFor(rand, 0)
    ensures QueueTotal(m) == |Entries(m.scopes, m.scopes.Keys)|
  {
    assert Entries(m.scopes, none) == {};
  }

  /** One more scope adds its queue, and the sum stays within the total. */
  lemma MoreEntries(m: Mgr, todo: set<KeyScope>, sc: KeyScope)
    requires sc in todo && todo <= m.scopes.Keys
    ensures |Entries(m.scopes, m.scopes.Keys - (todo - {sc}))| ==
            |Entries(m.scopes, m.scopes.Keys - todo)| + |m.scopes[sc].queue|
    ensures |Entries(m.scopes, m.scopes.Keys - (todo - {sc}))| <= QueueTotal(m)
  {
    hide Entries, EntriesOf;
    var more, all := Entries(m.scopes, m.scopes.Keys - (todo - {sc})), Entries(m.scopes, m.scopes.Keys);
    EntriesOfSize(sc, |m.scopes[sc].queue|);
    SplitEntries(m.scopes, todo, sc);
    assert more + (all - more) == all;
  }

  lemma SplitEntries(scopes: map<KeyScope, Scoped>, todo: set<KeyScope>, sc: KeyScope)
    requires sc in todo && todo <= scopes.Keys
    ensures var done, mine := Entries(scopes, scopes.Keys - todo), EntriesOf(sc, |scopes[sc].queue|);
            && Entries(scopes, scopes.Keys - (todo - {sc})) == done + mine && done * mine == {}
            && done + mine <= Entries(scopes, scopes.Keys)
  {
  }

  lemma AccountIsObstacle(c: Crypto, ck: Bytes, pre: Mgr, sc: KeyScope, rand: Prng, code: ErrorCode)
    requires Structured(pre) && sc in pre.scopes && AccountObstacle(c, ck, pre.scopes[sc], code)
    ensures Obstacle(c, ck, pre, rand, code)
  {
    hide Structured, AccountObstacle;
  }

  lemma NonceIsObstacle(c: Crypto, ck: Bytes, pre: Mgr, rand: Prng, i: nat)
    requires Structured(pre) && Nonce(rand, i) == None && i < QueueTotal(pre)
    ensures Obstacle(c, ck, pre, rand, ErrCrypto)
  {
    hide Structured, EntryStuck, Nonce, AccountObstacle;
  }

  lemma FilledNow(c: Crypto, ck: Bytes, keyEnc: Bytes, a: Address, acct: Account, sealed: Bytes)
    requires OpenedAccount(c, ck, acct) && acct.keyEnc == keyEnc
    requires DeriveKey(c, acct.keyPriv, a.path.branch, a.path.index).Ok?
    requires var d := c.scalar(DeriveKey(c, acct.keyPriv, a.path.branch, a.path.index).value);
             Decrypt(c, ck, sealed) == Some(d) && |sealed| >= NONCE_SIZE
    ensures var d := c.scalar(DeriveKey(c, acct.keyPriv, a.path.branch, a.path.index).value);
            Filled(c, ck, keyEnc, a, a.(privEnc := sealed, privCT := d))
  {
    hide DeriveKey, OpenKey, Decrypt;
  }

  lemma Sizes(m: Mgr)
    requires Structured(m)
    ensures |m.salt| == SALT_SIZE && |m.cryptoPriv| == KEY_SIZE
  {
  }

  /** One turn of the loop: fill the head's address, pop the head. */
  lemma DrainOne(c: Crypto, ck: Bytes, pre: Mgr, mid: Mgr, post: Mgr, sc: KeyScope, i: nat)
    requires Structured(pre) && Drained(c, ck, pre, mid) && sc in mid.scopes && i < |pre.scopes[sc].queue|
    requires mid.scopes[sc].queue == pre.scopes[sc].queue[i..]
    requires pre.scopes[sc].queue[i].addr < |mid.heap|
    requires post.scopes == mid.scopes[sc := mid.scopes[sc].(queue := pre.scopes[sc].queue[i + 1..])]
    requires var e := pre.scopes[sc].queue[i];
             && |post.heap| == |mid.heap| && post.heap == mid.heap[e.addr := post.heap[e.addr]]
             && pre.heap[e.addr].scope in pre.scopes
                && pre.heap[e.addr].path.account in pre.scopes[pre.heap[e.addr].scope].accounts
             && Filled(c, ck, SealedKeyOf(pre, pre.heap[e.addr]), mid.heap[e.addr], post.heap[e.addr])
    ensures Drained(c, ck, pre, post)
  {
    hide Structured, PoppedFilled, SameAccounts, HeapFilled, Filled, IsSuffix;
    var e := pre.scopes[sc].queue[i];
    DrainHeap(c, ck, pre, mid.heap, post.heap, e.addr);
    forall t | t in pre.scopes
      ensures SameAccounts(pre.scopes[t], post.scopes[t]) && IsSuffix(post.scopes[t].queue, pre.scopes[t].queue)
      ensures PoppedFilled(c, ck, pre, pre.scopes[t].queue, |pre.scopes[t].queue| - |post.scopes[t].queue|, post.heap)
    {
      var q := pre.scopes[t].queue;
      if t == sc {
        SameAccountsQueue(pre.scopes[t], mid.scopes[t], post.scopes[t]);
        DropIsSuffix(q, i + 1);
        PopMore(c, ck, pre, q, i, mid.heap, post.heap);
      } else {
        PopSame(c, ck, pre, q, |q| - |mid.scopes[t].queue|, mid.heap, post.heap, e.addr);
      }
    }
  }

  lemma DropIsSuffix(q: seq<Entry>, i: nat)
    requires i <= |q|
    ensures IsSuffix(q[i..], q)
  {
  }

  lemma DrainHeap(c: Crypto, ck: Bytes, pre: Mgr, before: seq<Address>, heap: seq<Address>, at: nat)
    requires Structured(pre) && HeapFilled(c, ck, pre, before) && at < |before| == |heap|
    requires heap == before[at := heap[at]]
    requires pre.heap[at].scope in pre.scopes && pre.heap[at].path.account in pre.scopes[pre.heap[at].scope].accounts
    requires Filled(c, ck, SealedKeyOf(pre, pre.heap[at]), before[at], heap[at])
    ensures HeapFilled(c, ck, pre, heap) && |pre.heap| == |heap|
    ensures Filled(c, ck, SealedKeyOf(pre, pre.heap[at]), pre.heap[at], heap[at])
  {
    hide Structured, Filled;
    Refilled(c, ck, SealedKeyOf(pre, pre.heap[at]), pre.heap[at], before[at], heap[at]);
  }

  lemma SameAccountsQueue(s: Scoped, t: Scoped, u: Scoped)
    requires SameAccounts(s, t) && u.accounts == t.accounts && u.schema == t.schema && u.addrs == t.addrs
    ensures SameAccounts(s, u)
  {
  }

  lemma Refilled(c: Crypto, ck: Bytes, keyEnc: Bytes, a: Address, b: Address, d: Address)
    requires (b == a || Filled(c, ck, keyEnc, a, b)) && Filled(c, ck, keyEnc, b, d)
    ensures Filled(c, ck, keyEnc, a, d)
  {
    hide DeriveKey, OpenKey, Decrypt;
  }

  lemma PopMore(c: Crypto, ck: Bytes, pre: Mgr, q: seq<Entry>, i: nat, before: seq<Address>, heap: seq<Address>)
    requires Structured(pre) && i < |q| && q[i].addr < |pre.heap| && |before| == |heap| == |pre.heap|
    requires PoppedFilled(c, ck, pre, q, i, before)
    requires heap == before[q[i].addr := heap[q[i].addr]]
    requires Filled(c, ck, SealedKeyOf(pre, pre.heap[q[i].addr]), pre.heap[q[i].addr], heap[q[i].addr])
    ensures PoppedFilled(c, ck, pre, q, i + 1, heap)
  {
    hide Structured, Filled;
    SealedKeysExist(pre);
    forall j | 0 <= j < i + 1 && j < |q| && q[j].addr < |pre.heap|
      ensures Filled(c, ck, SealedKeyOf(pre, pre.heap[q[j].addr]), pre.heap[q[j].addr], heap[q[j].addr])
    {
      if q[j].addr != q[i].addr { assert heap[q[j].addr] == before[q[j].addr]; }
    }
  }

  lemma PopSame(c: Crypto, ck: Bytes, pre: Mgr, q: seq<Entry>, popped: int, before: seq<Address>, heap: seq<Address>,
                at: nat)
    requires Structured(pre) && at < |pre.heap| && |before| == |heap| == |pre.heap|
    requires PoppedFilled(c, ck, pre, q, popped, before)
    requires heap == before[at := heap[at]]
    requires pre.heap[at].scope in pre.scopes && pre.heap[at].path.account in pre.scopes[pre.heap[at].scope].accounts
    requires Filled(c, ck, SealedKeyOf(pre, pre.heap[at]), pre.heap[at], heap[at])
    ensures PoppedFilled(c, ck, pre, q, popped, heap)
  {
    hide Structured, Filled;
    SealedKeysExist(pre);
    forall j | 0 <= j < popped && j < |q| && q[j].addr < |pre.heap|
      ensures Filled(c, ck, SealedKeyOf(pre, pre.heap[q[j].addr]), pre.heap[q[j].addr], heap[q[j].addr])
    {
      if q[j].addr != at { assert heap[q[j].addr] == before[q[j].addr]; }
    }
  }

  lemma SealedKeysExist(m: Mgr)
    requires Structured(m)
    ensures forall i :: 0 <= i < |m.heap| ==>
              m.heap[i].scope in m.scopes && m.heap[i].path.account in m.scopes[m.heap[i].scope].accounts
  {
  }

  // --------------------------------------------------------------- relocking

  lemma StructuredFrame(m: Mgr, n: Mgr)
    requires Structured(m) && n.scopes == m.scopes && n.heap == m.heap && |n.salt| == SALT_SIZE
    requires |n.cryptoPriv| == KEY_SIZE
    ensures Structured(n)
  {
    forall sc, i | sc in n.scopes && 0 <= i < |n.scopes[sc].queue| ensures EntryCached(n, sc, n.scopes[sc].queue[i]) {
      assert EntryCached(m, sc, m.scopes[sc].queue[i]);
    }
  }

  lemma WipedStructured(m: Mgr, pass: Bytes)
    requires Structured(m)
    ensures Structured(m.(salt := WipedSalt(m.salt, pass)))
  {
    hide EntryCached;
    StructuredFrame(m, m.(salt := WipedSalt(m.salt, pass)));
  }

  lemma RelockFrom(pre: Mgr, now: Mgr)
    requires Structured(pre) && now == pre.(master := now.master)
    ensures Structured(now) && LockOf(now) == LockOf(pre)
  {
    hide EntryCached, CachedAmong;
    StructuredFrame(pre, now);
    assert LockedHeap(now) == LockedHeap(pre);
  }

  lemma RelockDrained(c: Crypto, ck: Bytes, pre: Mgr, now: Mgr)
    requires Structured(pre) && Drained(c, ck, pre, now) && |now.cryptoPriv| == KEY_SIZE
    requires now == pre.(master := now.master, cryptoPriv := now.cryptoPriv, scopes := now.scopes, heap := now.heap)
    ensures Structured(now) && RelocksAfter(c, ck, pre, LockOf(now))
  {
    hide Drained, EntryCached, CachedAmong, Structured;
    assert |now.salt| == SALT_SIZE by { SaltSize(pre, []); }
    DrainedStructured(c, ck, pre, now);
    var mid := pre.(scopes := now.scopes, heap := now.heap);
    DrainedFrame(c, ck, pre, now, mid);
    assert LockedHeap(now) == LockedHeap(mid);
    assert LockOf(now) == LockOf(mid);
  }
}
