/** Lock and Unlock against the invariant: every failing unlock ends locked, draining the
    queue gives each address the private key of its path, and locking then unlocking
    restores every key.
 */
module KeyringLocking {
  import opened ByteCodec
  import opened Errors
  import opened Primitives
  import opened Snacl
  import opened AccountTable
  import opened Keyring
  import opened KeyringInvariant

  /** The invariant without the locked/unlocked distinction, as it holds mid-unlock. */
  ghost predicate Core(c: Crypto, sec: Secrets, m: Mgr) {
    Base(c, sec, m) && Structured(m) && AccountsOK(c, sec, m) && HeapOK(c, sec, m) && ShapesOK(c, m)
  }

  // ------------------------------------------------------------------------ lock

  lemma LockedScopeFacts(m: Mgr, sc: KeyScope)
    requires sc in m.scopes
    ensures LockOf(m).scopes.Keys == m.scopes.Keys
    ensures var s, t := m.scopes[sc], LockOf(m).scopes[sc];
            && t.queue == s.queue && t.addrs == s.addrs && t.schema == s.schema && t.accounts.Keys == s.accounts.Keys
            && forall n :: n in s.accounts ==> t.accounts[n] == s.accounts[n].(keyPriv := None)
  {
    hide LockedHeap;
  }

  lemma LockStructured(m: Mgr)
    requires Structured(m)
    ensures Structured(LockOf(m))
  {
    var l := LockOf(m);
    forall sc | sc in m.scopes ensures sc in l.scopes { LockedScopeFacts(m, sc); }
    forall sc, i | sc in l.scopes && 0 <= i < |l.scopes[sc].queue| ensures EntryCached(l, sc, l.scopes[sc].queue[i]) {
      LockedScopeFacts(m, sc);
      assert EntryCached(m, sc, m.scopes[sc].queue[i]);
    }
    forall i | 0 <= i < |l.heap|
      ensures l.heap[i].scope in l.scopes && l.heap[i].path.account in l.scopes[l.heap[i].scope].accounts
    {
      LockedScopeFacts(m, m.heap[i].scope);
    }
  }

  lemma LockAccountsOK(c: Crypto, sec: Secrets, m: Mgr)
    requires AccountsOK(c, sec, m)
    ensures AccountsOK(c, sec, LockOf(m))
  {
    hide AccountKey, OpenKey, LockedHeap, InCache;
    var l := LockOf(m);
    forall sc, n | sc in l.scopes && n in l.scopes[sc].accounts
      ensures AccountOK(c, sec, sc, n, l.scopes[sc].accounts[n]) {
      LockedScopeFacts(m, sc);
      SameKeys(c, sec, sc, n, m.scopes[sc].accounts[n], l.scopes[sc].accounts[n]);
    }
  }

  lemma LockHeapOK(c: Crypto, sec: Secrets, m: Mgr)
    requires HeapOK(c, sec, m)
    ensures HeapOK(c, sec, LockOf(m))
  {
    hide AddressKey, OpenKey, Decrypt, LockedScopes, InCache;
    var l := LockOf(m);
    forall i | 0 <= i < |l.heap| ensures AddrOK(c, sec, l.heap[i]) && (l.heap[i].privEnc != [] || Queued(l, i)) {
      assert AddrOK(c, sec, m.heap[i]);
      if l.heap[i].privEnc == [] {
        assert Queued(m, i);
        LockedScopeFacts(m, m.heap[i].scope);
        KeepsQueued(m, l, i);
      }
    }
  }

  /** lock() restores the locked invariant from any point of an unlock. */
  lemma LockOK(c: Crypto, sec: Secrets, m: Mgr)
    requires Core(c, sec, m)
    ensures MgrOK(c, sec, LockOf(m))
  {
    hide AccountsOK, HeapOK, Structured, ShapesOK, CachesClear;
    LockStructured(m);
    LockAccountsOK(c, sec, m);
    LockHeapOK(c, sec, m);
    LockShapesOK(c, m);
    LockedCachesClear(m);
    forall sc, n | sc in LockOf(m).scopes && n in LockOf(m).scopes[sc].accounts
      ensures LockOf(m).scopes[sc].accounts[n].keyPriv == None
    {
      LockedScopeFacts(m, sc);
    }
    assert Base(c, sec, LockOf(m)) by { LockBase(c, sec, m); }
  }

  lemma LockShapesOK(c: Crypto, m: Mgr)
    requires ShapesOK(c, m)
    ensures ShapesOK(c, LockOf(m))
  {
    hide ShapesOK, InCache, LockedScopes;
    LockFacts(m);
    forall sc | sc in m.scopes
      ensures LockOf(m).scopes[sc].schema == m.scopes[sc].schema && LockOf(m).scopes[sc].addrs == m.scopes[sc].addrs
    {
      LockedScopeFacts(m, sc);
    }
    SameShapes(c, m, LockOf(m));
  }

  lemma LockedCachesClear(m: Mgr)
    ensures CachesClear(LockOf(m))
  {
    hide LockedScopes, LockedHeap;
    var l := LockOf(m);
    LockFacts(m);
    forall sc, id | sc in l.scopes && id in l.scopes[sc].addrs && l.scopes[sc].addrs[id] < |l.heap|
      ensures l.heap[l.scopes[sc].addrs[id]].privCT == []
    {
      LockedScopeFacts(m, sc);
      assert CachedBy(m.scopes[sc].addrs, m.scopes[sc].addrs[id]);
      LockClearsExactly(m, l.scopes[sc].addrs[id]);
    }
  }

  lemma LockBase(c: Crypto, sec: Secrets, m: Mgr)
    requires Base(c, sec, m)
    ensures Base(c, sec, LockOf(m))
  {
    hide LockedHeap, LockedScopes, Decrypt, DeriveKeySpec, Accepts;
  }

  /** Exactly which clear-text address keys lock() removes: those of addresses in a
      scope's address cache.  Addresses handed out without being cached keep theirs. */
  lemma LockClearsExactly(m: Mgr, ref: nat)
    requires ref < |m.heap|
    ensures LockOf(m).heap[ref].privCT == [] <==> m.heap[ref].privCT == [] || InCache(m, ref)
  {
    hide InCache, LockedScopes;
  }

  // ---------------------------------------------------------------------- drain

  lemma FilledKeepsIdentity(c: Crypto, ck: Bytes, pre: Mgr, heap: seq<Address>, i: nat)
    requires Structured(pre) && HeapFilled(c, ck, pre, heap) && i < |heap|
    ensures heap[i].scope == pre.heap[i].scope && heap[i].path == pre.heap[i].path
    ensures heap[i].pubKey == pre.heap[i].pubKey && SameIdentity(pre.heap[i], heap[i])
  {
    hide DeriveKey, OpenKey, Decrypt, Structured;
  }

  lemma DrainedStructured(c: Crypto, ck: Bytes, pre: Mgr, post: Mgr)
    requires Structured(pre) && Drained(c, ck, pre, post) && |post.salt| == SALT_SIZE && |post.cryptoPriv| == KEY_SIZE
    ensures Structured(post)
  {
    hide Filled, PoppedFilled, HeapFilled;
    assert |post.heap| == |pre.heap| by { HeapSize(c, ck, pre, post.heap); }
    forall i | 0 <= i < |post.heap| ensures post.heap[i].scope == pre.heap[i].scope
      && post.heap[i].path == pre.heap[i].path {
      FilledKeepsIdentity(c, ck, pre, post.heap, i);
    }
    forall sc, i | sc in post.scopes && 0 <= i < |post.scopes[sc].queue|
      ensures EntryCached(post, sc, post.scopes[sc].queue[i]) {
      var q := pre.scopes[sc].queue;
      var j := i + |q| - |post.scopes[sc].queue|;
      assert IsSuffix(post.scopes[sc].queue, q);
      assert post.scopes[sc].queue[i] == q[j];
      assert EntryCached(pre, sc, q[j]);
    }
  }

  lemma DrainedScope(c: Crypto, ck: Bytes, pre: Mgr, post: Mgr, sc: KeyScope)
    requires Structured(pre) && Drained(c, ck, pre, post) && sc in pre.scopes
    ensures sc in post.scopes && SameAccounts(pre.scopes[sc], post.scopes[sc])
  {
    hide Structured, HeapFilled, PoppedFilled, SameAccounts, IsSuffix;
  }

  lemma HeapSize(c: Crypto, ck: Bytes, pre: Mgr, heap: seq<Address>)
    requires Structured(pre) && HeapFilled(c, ck, pre, heap)
    ensures |heap| == |pre.heap|
  {
    hide Filled, Structured;
  }

  lemma DrainedAccountsOK(c: Crypto, sec: Secrets, ck: Bytes, pre: Mgr, post: Mgr)
    requires Structured(pre) && Drained(c, ck, pre, post) && AccountsOK(c, sec, pre)
    ensures AccountsOK(c, sec, post)
  {
    hide AccountKey, OpenKey, HeapFilled, PoppedFilled, Structured;
    forall sc, n | sc in post.scopes && n in post.scopes[sc].accounts
      ensures AccountOK(c, sec, sc, n, post.scopes[sc].accounts[n])
    {
      assert SameAccounts(pre.scopes[sc], post.scopes[sc]);
      var a, b := pre.scopes[sc].accounts[n], post.scopes[sc].accounts[n];
      assert a.(keyPriv := None).keyEnc == b.(keyPriv := None).keyEnc;
      assert a.(keyPriv := None).keyPub == b.(keyPriv := None).keyPub;
      SameKeys(c, sec, sc, n, a, b);
    }
  }

  /** A filled address holds the private key of its path: the one whose public key is
      the address's stored one. */
  lemma FilledOK(c: Crypto, sec: Secrets, m: Mgr, i: nat, b: Address)
    requires Core(c, sec, m) && i < |m.heap|
    requires Filled(c, sec.priv, SealedKeyOf(m, m.heap[i]), m.heap[i], b)
    ensures AddrOK(c, sec, b) && b.privEnc != []
  {
    hide HeapOK, AccountKey, OpenKey, Decrypt, DeriveKey, Base;
    var a := m.heap[i];
    assert AccountOK(c, sec, a.scope, a.path.account, m.scopes[a.scope].accounts[a.path.account]);
    assert AddrOK(c, sec, a) by { HeapAt(c, sec, m, i); }
  }

  lemma HeapAt(c: Crypto, sec: Secrets, m: Mgr, i: nat)
    requires HeapOK(c, sec, m) && i < |m.heap|
    ensures AddrOK(c, sec, m.heap[i]) && (m.heap[i].privEnc != [] || Queued(m, i))
  {
    hide AddrOK, Queued;
  }

  lemma DrainedAddrOK(c: Crypto, sec: Secrets, pre: Mgr, post: Mgr, i: nat)
    requires Core(c, sec, pre) && Drained(c, sec.priv, pre, post) && i < |post.heap|
    ensures i < |pre.heap| && AddrOK(c, sec, post.heap[i])
    ensures post.heap[i].privEnc != [] || (post.heap[i] == pre.heap[i] && Queued(pre, i))
  {
    hide AddrOK, Queued, Filled, Base, AccountsOK, HeapOK, SameAccounts, IsSuffix, PoppedFilled;
    HeapAt(c, sec, pre, i);
    if post.heap[i] != pre.heap[i] {
      FilledOK(c, sec, pre, i, post.heap[i]);
    }
  }

  /** A queued address that was not filled is still queued. */
  lemma UnfilledStaysQueued(c: Crypto, sec: Secrets, pre: Mgr, post: Mgr, i: nat)
    requires Core(c, sec, pre) && Drained(c, sec.priv, pre, post) && i < |pre.heap| && i < |post.heap|
    requires post.heap[i] == pre.heap[i] && pre.heap[i].privEnc == [] && Queued(pre, i)
    ensures Queued(post, i)
  {
    hide AddrOK, Base, AccountsOK, HeapOK, SameAccounts, HeapFilled, PoppedFilled, Structured;
    var sc := pre.heap[i].scope;
    var q, q' := pre.scopes[sc].queue, post.scopes[sc].queue;
    var j :| 0 <= j < |q| && q[j].addr == i;
    var popped := |q| - |q'|;
    assert IsSuffix(q', q);
    assert PoppedFilled(c, sec.priv, pre, q, popped, post.heap);
    if j < popped {
      PoppedHasKey(c, sec.priv, pre, q, popped, post.heap, j);
      assert false;
    } else {
      assert q'[j - popped] == q[j];
    }
  }

  lemma PoppedHasKey(c: Crypto, ck: Bytes, pre: Mgr, q: seq<Entry>, popped: int, heap: seq<Address>, j: nat)
    requires Structured(pre) && PoppedFilled(c, ck, pre, q, popped, heap)
    requires j < popped && j < |q| && q[j].addr < |pre.heap| && q[j].addr < |heap|
    ensures heap[q[j].addr].privEnc != []
  {
    hide OpenKey, DeriveKey, Decrypt, EntryCached;
  }

  lemma DrainedHeapOK(c: Crypto, sec: Secrets, pre: Mgr, post: Mgr)
    requires Core(c, sec, pre) && Drained(c, sec.priv, pre, post)
    ensures HeapOK(c, sec, post)
  {
    hide AddrOK, Queued, Core, Drained;
    forall i | 0 <= i < |post.heap| ensures AddrOK(c, sec, post.heap[i])
      && (post.heap[i].privEnc != [] || Queued(post, i)) {
      DrainedAddrOK(c, sec, pre, post, i);
      if post.heap[i].privEnc == [] {
        UnfilledStaysQueued(c, sec, pre, post, i);
      }
    }
  }

  lemma DrainedShapesOK(c: Crypto, ck: Bytes, pre: Mgr, post: Mgr)
    requires Structured(pre) && Drained(c, ck, pre, post) && ShapesOK(c, pre)
    ensures ShapesOK(c, post)
  {
    hide Structured, PoppedFilled, HeapFilled, ShapesOK;
    HeapSize(c, ck, pre, post.heap);
    forall i | 0 <= i < |pre.heap| ensures SameIdentity(pre.heap[i], post.heap[i]) {
      FilledKeepsIdentity(c, ck, pre, post.heap, i);
    }
    SameShapes(c, pre, post);
  }

  lemma DrainedCore(c: Crypto, sec: Secrets, pre: Mgr, post: Mgr)
    requires Core(c, sec, pre) && Drained(c, sec.priv, pre, post) && Base(c, sec, post) && |post.salt| == SALT_SIZE
    ensures Core(c, sec, post)
  {
    hide AccountsOK, HeapOK, Drained, Structured, ShapesOK;
    DrainedStructured(c, sec.priv, pre, post);
    DrainedShapesOK(c, sec.priv, pre, post);
    DrainedAccountsOK(c, sec, sec.priv, pre, post);
    DrainedHeapOK(c, sec, pre, post);
  }

  // --------------------------------------------------------------------- unlock

  lemma CopiedKey(sec: Secrets, to: Bytes)
    requires |sec.priv| == |to|
    ensures CopyInto(to, sec.priv) == sec.priv
  {
  }

  /** Past the master key the crypto key is the true one. */
  lemma AcceptedMeansMaster(c: Crypto, sec: Secrets, m: Mgr, pass: Bytes)
    requires Base(c, sec, m) && Accepts(c, m.params, pass) && OnlyMaster(c, sec, pass)
    ensures DeriveKeySpec(c, m.params, pass) == (Some(sec.master), None)
    ensures Decrypt(c, sec.master, m.cryptoPrivEnc) == Some(sec.priv)
    ensures CopyInto(m.cryptoPriv, sec.priv) == sec.priv
  {
    CopiedKey(sec, m.cryptoPriv);
  }

  lemma OpenedOK(c: Crypto, sec: Secrets, pre: Mgr, pass: Bytes, rand: Prng, post: Mgr)
    requires Core(c, sec, pre) && OpensWith(c, pre, pass, sec.master, sec.priv, rand, post, Ok(()))
    ensures MgrOK(c, sec, post)
  {
    hide AccountsOK, HeapOK, Drained, AccountsOpen, Structured, ShapesOK;
    assert |post.salt| == SALT_SIZE by { SaltSize(pre, pass); }
    assert Base(c, sec, post) by { hide Decrypt, DeriveKeySpec, Accepts; }
    DrainedCore(c, sec, pre, post);
  }

  lemma SaltSize(m: Mgr, pass: Bytes)
    requires Structured(m)
    ensures |WipedSalt(m.salt, pass)| == SALT_SIZE == |m.salt|
  {
    hide EntryCached;
  }

  lemma RelockedOK(c: Crypto, sec: Secrets, pre: Mgr, post: Mgr)
    requires Core(c, sec, pre) && RelocksAfter(c, sec.priv, pre, post)
    ensures MgrOK(c, sec, post)
  {
    hide AccountsOK, HeapOK, Drained, LockOf, Structured, ShapesOK;
    var scopes, heap :| (var mid := pre.(scopes := scopes, heap := heap);
                         Drained(c, sec.priv, pre, mid) && post == LockOf(mid));
    var mid := pre.(scopes := scopes, heap := heap);
    SaltSize(pre, []);
    assert Base(c, sec, mid) by { hide Decrypt, DeriveKeySpec, Accepts; }
    DrainedCore(c, sec, pre, mid);
    LockOK(c, sec, mid);
  }

  lemma WipeOK(c: Crypto, sec: Secrets, m: Mgr, pass: Bytes)
    requires MgrOK(c, sec, m)
    ensures MgrOK(c, sec, m.(salt := WipedSalt(m.salt, pass)))
  {
    hide AddrOK, AccountOK, OpenKey, Decrypt, DeriveKeySpec, Accepts, ShapesOK;
    SameShapes(c, m, m.(salt := WipedSalt(m.salt, pass)));
    var w := m.(salt := WipedSalt(m.salt, pass));
    forall sc, i | sc in w.scopes && 0 <= i < |w.scopes[sc].queue| ensures EntryCached(w, sc, w.scopes[sc].queue[i]) {
      assert EntryCached(m, sc, m.scopes[sc].queue[i]);
    }
    forall i | 0 <= i < |w.heap| ensures w.heap[i].privEnc != [] || Queued(w, i) {
      HeapAt(c, sec, m, i);
      if Queued(m, i) { KeepsQueued(m, w, i); }
    }
  }

  lemma CoreOf(c: Crypto, sec: Secrets, m: Mgr)
    requires MgrOK(c, sec, m)
    ensures Core(c, sec, m)
  {
    hide Base, Structured, AccountsOK, HeapOK, Mode, ShapesOK;
  }

  /** Unlock keeps the invariant, whether it succeeds or fails. */
  lemma UnlockOK(c: Crypto, sec: Secrets, pre: Mgr, pass: Bytes, rand: Prng, post: Mgr, r: Outcome<()>)
    requires MgrOK(c, sec, pre) && Unlocks(c, pre, pass, rand, post, r) && (pre.locked ==> OnlyMaster(c, sec, pass))
    ensures MgrOK(c, sec, post)
  {
    hide MgrOK, Structured, OpensWith, LockOf;
    CoreOf(c, sec, pre);
    assert !pre.watchingOnly by { NetOf(c, sec, pre); }
    if !pre.locked {
      WipeOK(c, sec, pre, pass);
      CoreOf(c, sec, pre.(salt := WipedSalt(pre.salt, pass)));
      LockOK(c, sec, pre.(salt := WipedSalt(pre.salt, pass)));
    } else if !Accepts(c, pre.params, pass) {
      LockOK(c, sec, pre);
    } else {
      AcceptedMeansMaster(c, sec, pre, pass);
      OpensOK(c, sec, pre, pass, rand, post, r);
    }
  }

  lemma OpensOK(c: Crypto, sec: Secrets, pre: Mgr, pass: Bytes, rand: Prng, post: Mgr, r: Outcome<()>)
    requires Core(c, sec, pre) && OpensWith(c, pre, pass, sec.master, sec.priv, rand, post, r)
    ensures MgrOK(c, sec, post)
  {
    hide Core, Structured, Drained, AccountsOpen, Obstacle, RelocksAfter, MgrOK;
    if r.Ok? {
      OpenedOK(c, sec, pre, pass, rand, post);
    } else {
      RelockedOK(c, sec, pre, post);
    }
  }

  lemma LockIdempotent(m: Mgr)
    ensures LockOf(LockOf(m)) == LockOf(m)
  {
    var l := LockOf(m);
    forall sc | sc in m.scopes ensures l.scopes[sc].accounts == LockScoped(l.scopes[sc]).accounts {
      LockedScopeFacts(m, sc);
    }
    assert LockedScopes(l.scopes) == l.scopes;
    forall i | 0 <= i < |m.heap| ensures LockedHeap(l)[i] == l.heap[i] {
      LockKeepsCaches(m, i);
    }
    assert LockedHeap(l) == l.heap;
  }

  lemma LockKeepsCaches(m: Mgr, i: nat)
    ensures InCache(LockOf(m), i) <==> InCache(m, i)
  {
    hide LockScoped, CachedBy;
    forall sc | sc in m.scopes ensures sc in LockOf(m).scopes && LockOf(m).scopes[sc].addrs == m.scopes[sc].addrs {
      LockedScopeFacts(m, sc);
    }
    assert LockOf(m).scopes.Keys == m.scopes.Keys;
  }

  /** Every Unlock that fails for any reason but watching-only ends locked, with exactly
      the material cleared that Lock clears: locking the result again changes nothing. */
  lemma FailedUnlockIsLocked(c: Crypto, pre: Mgr, pass: Bytes, rand: Prng, post: Mgr, r: Outcome<()>)
    requires Structured(pre) && Unlocks(c, pre, pass, rand, post, r) && !r.Ok? && r != Err(ErrWatchingOnly)
    ensures post.locked && post == LockOf(post)
  {
    hide Structured, Drained, Obstacle, LockOf;
    if pre.locked && Accepts(c, pre.params, pass) && 
       Decrypt(c, DeriveKeySpec(c, pre.params, pass).0.value, pre.cryptoPrivEnc).Some? {
      var k := DeriveKeySpec(c, pre.params, pass).0.value;
      var ck := CopyInto(pre.cryptoPriv, Decrypt(c, k, pre.cryptoPrivEnc).value);
      RelockedIsLocked(c, ck, pre, post);
    } else if pre.locked {
      LockedForGood(pre);
    } else {
      LockedForGood(pre.(salt := WipedSalt(pre.salt, pass)));
    }
  }

  lemma LockedForGood(m: Mgr)
    ensures LockOf(m).locked && LockOf(LockOf(m)) == LockOf(m)
  {
    hide LockedHeap, LockedScopes;
    LockIdempotent(m);
  }

  lemma RelockedIsLocked(c: Crypto, ck: Bytes, pre: Mgr, post: Mgr)
    requires Structured(pre) && RelocksAfter(c, ck, pre, post)
    ensures post.locked && post == LockOf(post)
  {
    hide Structured, Drained, LockOf;
    var scopes, heap :| (var mid := pre.(scopes := scopes, heap := heap);
                         Drained(c, ck, pre, mid) && post == LockOf(mid));
    LockedForGood(pre.(scopes := scopes, heap := heap));
  }

  lemma NoObstacle(c: Crypto, sec: Secrets, m: Mgr, rand: Prng, code: ErrorCode)
    requires Core(c, sec, m) && Obstacle(c, sec.priv, m, rand, code)
    ensures !NoncesFor(rand, QueueTotal(m)) && code == ErrCrypto
  {
    hide Base, OpenKey, AccountKey, DeriveKey, NoncesFor, QueueTotal;
    forall sc, n | sc in m.scopes && n in m.scopes[sc].accounts
      ensures OpenKey(c, sec.priv, m.scopes[sc].accounts[n].keyEnc).Some?
    {
      OpenOfAccount(c, sec, sc, n, m.scopes[sc].accounts[n]);
    }
    forall sc, i | sc in m.scopes && 0 <= i < |m.scopes[sc].queue|
      ensures !EntryStuck(c, sec.priv, m, m.scopes[sc].queue[i]) {
      var e := m.scopes[sc].queue[i];
      assert EntryCached(m, sc, e);
      var a := m.heap[e.addr];
      HeapAt(c, sec, m, e.addr);
      assert AccountOK(c, sec, a.scope, a.path.account, m.scopes[a.scope].accounts[a.path.account]);
    }
  }

  /** On a locked manager the verdict is exactly the passphrase's and the random source's:
      stored ciphertexts always open, queued derivations always succeed, and one nonce is
      read for each queued address.  A key with another digest is a wrong passphrase, a
      failing scrypt or nonce a crypto error. */
  lemma UnlockVerdict(c: Crypto, sec: Secrets, pre: Mgr, pass: Bytes, rand: Prng, post: Mgr, r: Outcome<()>)
    requires MgrOK(c, sec, pre) && pre.locked && Unlocks(c, pre, pass, rand, post, r) && OnlyMaster(c, sec, pass)
    ensures r.Ok? <==> Accepts(c, pre.params, pass) && NoncesFor(rand, QueueTotal(pre))
    ensures var k := c.scrypt(pass, pre.params.salt, pre.params.n, pre.params.r, pre.params.p);
            r == if k == None then Err(ErrCrypto)
                 else if c.sha256(k.value) != pre.params.digest then Err(ErrWrongPassphrase)
                 else if !NoncesFor(rand, QueueTotal(pre)) then Err(ErrCrypto)
                 else Ok(())
  {
    hide MgrOK, Structured, Drained, AccountsOpen, RelocksAfter, LockOf, Obstacle, NoncesFor, QueueTotal;
    CoreOf(c, sec, pre);
    assert !pre.watchingOnly by { NetOf(c, sec, pre); }
    if Accepts(c, pre.params, pass) {
      AcceptedMeansMaster(c, sec, pre, pass);
      if !r.Ok? {
        NoObstacle(c, sec, pre, rand, r.code);
      } else {
        assert r.value == ();
      }
    }
  }

  /** A successful unlock from the locked state empties every queue and leaves every
      address ever created with a sealed and, if it was queued, a clear private key
      whose public key is the address's own. */
  lemma UnlockDeliversKeys(c: Crypto, sec: Secrets, pre: Mgr, pass: Bytes, rand: Prng, post: Mgr, ref: nat)
    requires Lawful(c) && MgrOK(c, sec, pre) && pre.locked && OnlyMaster(c, sec, pass)
    requires Unlocks(c, pre, pass, rand, post, Ok(())) && ref < |pre.heap|
    ensures |post.heap| == |pre.heap| && post.heap[ref].pubKey == pre.heap[ref].pubKey
    ensures forall sc :: sc in post.scopes ==> post.scopes[sc].queue == []
    ensures post.heap[ref].privEnc != []
    ensures Decrypt(c, sec.priv, post.heap[ref].privEnc).Some?
    ensures c.pointOf(Decrypt(c, sec.priv, post.heap[ref].privEnc).value) == pre.heap[ref].pubKey
    ensures Queued(pre, ref) ==> c.pointOf(post.heap[ref].privCT) == pre.heap[ref].pubKey
  {
    hide HashLaws, BoxLaws, ChildLaws, Structured, AddressKey, Base, AccountsOK, Mode, AccountsOpen, Queued;
    UnlockOK(c, sec, pre, pass, rand, post, Ok(()));
    CoreOf(c, sec, pre);
    CoreOf(c, sec, post);
    UnlockedPre(c, sec, pre, pass, rand, post, Ok(()));
    HeapSize(c, sec.priv, pre, post.heap);
    FilledKeepsIdentity(c, sec.priv, pre, post.heap, ref);
    HeapAt(c, sec, post, ref);
    NotQueuedWhenEmpty(post, ref);
    var k := AddressKey(c, sec.root, post.heap[ref].scope, post.heap[ref].path).value;
    AddressKeyPrivate(c, sec, post.heap[ref].scope, post.heap[ref].path) by { RootOf(c, sec, pre); }
    if Queued(pre, ref) {
      QueuedWasFilled(c, sec, pre, post, ref);
    }
  }

  lemma UnlockedPre(c: Crypto, sec: Secrets, pre: Mgr, pass: Bytes, rand: Prng, post: Mgr, r: Outcome<()>)
    requires MgrOK(c, sec, pre) && pre.locked && Unlocks(c, pre, pass, rand, post, r) && r.Ok?
    requires OnlyMaster(c, sec, pass)
    ensures Drained(c, sec.priv, pre, post)
    ensures forall sc :: sc in post.scopes ==> post.scopes[sc].queue == []
    ensures post.cryptoPriv == sec.priv && post.master == sec.master && !post.locked && post.net == pre.net
  {
    hide Structured, Drained, AccountsOK, HeapOK, AccountsOpen, Mode;
    AcceptedMeansMaster(c, sec, pre, pass);
  }

  lemma NotQueuedWhenEmpty(m: Mgr, ref: nat)
    requires forall sc :: sc in m.scopes ==> m.scopes[sc].queue == []
    ensures !Queued(m, ref)
  {
  }

  lemma AddressKeyPrivate(c: Crypto, sec: Secrets, sc: KeyScope, path: Path)
    requires Lawful(c) && sec.root.isPrivate && AddressKey(c, sec.root, sc, path).Ok?
    ensures AddressKey(c, sec.root, sc, path).value.isPrivate
  {
    hide Lawful, AccountKey, DeriveKey;
    AccountKeyPrivate(c, sec.root, sc, path.account);
    ChildPrivate(c, AccountKey(c, sec.root, sc, path.account).value, path.branch, path.index);
  }

  lemma QueuedWasFilled(c: Crypto, sec: Secrets, pre: Mgr, post: Mgr, ref: nat)
    requires Core(c, sec, pre) && Drained(c, sec.priv, pre, post) && ref < |pre.heap| && Queued(pre, ref)
    requires forall sc :: sc in post.scopes ==> post.scopes[sc].queue == []
    ensures |post.heap| == |pre.heap|
    ensures AddressKey(c, sec.root, pre.heap[ref].scope, pre.heap[ref].path).Ok?
    ensures post.heap[ref].privCT == c.scalar(AddressKey(c, sec.root, pre.heap[ref].scope, pre.heap[ref].path).value)
  {
    hide Base, AccountsOK, SameAccounts, DeriveKey, OpenKey, Decrypt, HeapOK;
    HeapSize(c, sec.priv, pre, post.heap);
    HeapAt(c, sec, pre, ref);
    var sc := pre.heap[ref].scope;
    var q := pre.scopes[sc].queue;
    var j :| 0 <= j < |q| && q[j].addr == ref;
    assert PoppedFilled(c, sec.priv, pre, q, |q|, post.heap);
    assert AccountsOK(c, sec, pre);
    AccountAt(c, sec, pre, sc, pre.heap[ref].path.account);
  }

  lemma AccountAt(c: Crypto, sec: Secrets, m: Mgr, sc: KeyScope, n: uint32)
    requires AccountsOK(c, sec, m) && sc in m.scopes && n in m.scopes[sc].accounts
    ensures AccountOK(c, sec, sc, n, m.scopes[sc].accounts[n])
  {
    hide AccountOK;
  }

  // ----------------------------------------------------------------- restoring

  /** PrivKey's answer on an unlocked, sound manager depends only on the address's path. */
  lemma PrivKeyAnswer(c: Crypto, sec: Secrets, m: Mgr, ref: nat)
    requires MgrOK(c, sec, m) && !m.locked && ref < |m.heap|
    ensures AddressKey(c, sec.root, m.heap[ref].scope, m.heap[ref].path).Ok?
    ensures PrivKey(c, m, ref).1 == Ok(c.scalar(AddressKey(c, sec.root, m.heap[ref].scope, m.heap[ref].path).value))
  {
    hide Structured, AddressKey, Decrypt, AccountsOK, AccountsOpen, Queued, HeapOK;
    HeapAt(c, sec, m, ref);
    NotQueuedWhenEmpty(m, ref);
  }

  /** Locking and then unlocking successfully, with whatever accepted passphrase, gives
      back the same crypto key, the same account keys and the same PrivKey answers. */
  lemma LockThenUnlockRestores(c: Crypto, sec: Secrets, m: Mgr, pass: Bytes, rand: Prng, back: Mgr)
    requires MgrOK(c, sec, m) && !m.locked && OnlyMaster(c, sec, pass)
    requires Structured(LockOf(m)) && Unlocks(c, LockOf(m), pass, rand, back, Ok(()))
    ensures back.cryptoPriv == m.cryptoPriv && !back.locked
    ensures back.scopes.Keys == m.scopes.Keys
    ensures forall sc :: sc in m.scopes ==> back.scopes[sc].accounts == m.scopes[sc].accounts
    ensures |back.heap| == |m.heap|
    ensures forall ref :: 0 <= ref < |m.heap| ==> PrivKey(c, back, ref).1 == PrivKey(c, m, ref).1
  {
    hide MgrOK, Unlocks, Drained, Structured, LockOf, PrivKey, AddressKey;
    var l := LockOf(m);
    CoreOf(c, sec, m);
    LockOK(c, sec, m);
    UnlockOK(c, sec, l, pass, rand, back, Ok(()));
    assert l.locked && |l.heap| == |m.heap| by { LockFacts(m); }
    UnlockedPre(c, sec, l, pass, rand, back, Ok(()));
    CoreOf(c, sec, l);
    RestoredAccounts(c, sec, m, back);
    assert m.cryptoPriv == sec.priv by { NetOf(c, sec, m); }
    assert |back.heap| == |l.heap| by { DrainedHeapSize(c, sec, l, back); }
    forall ref | 0 <= ref < |m.heap| ensures PrivKey(c, back, ref).1 == PrivKey(c, m, ref).1 {
      LockIdentity(m, ref);
      DrainedIdentity(c, sec, l, back, ref);
      PrivKeyAnswer(c, sec, m, ref);
      PrivKeyAnswer(c, sec, back, ref);
    }
  }

  lemma LockFacts(m: Mgr)
    ensures LockOf(m).locked && |LockOf(m).heap| == |m.heap| && LockOf(m).scopes.Keys == m.scopes.Keys
  {
    hide InCache;
  }

  lemma LockIdentity(m: Mgr, ref: nat)
    requires ref < |m.heap|
    ensures ref < |LockOf(m).heap|
    ensures LockOf(m).heap[ref].scope == m.heap[ref].scope && LockOf(m).heap[ref].path == m.heap[ref].path
  {
    hide InCache, LockedScopes;
  }

  lemma DrainedHeapSize(c: Crypto, sec: Secrets, pre: Mgr, post: Mgr)
    requires Core(c, sec, pre) && Drained(c, sec.priv, pre, post)
    ensures |post.heap| == |pre.heap|
  {
    hide Base, AccountsOK, HeapOK, SameAccounts, PoppedFilled, Filled;
  }

  lemma DrainedIdentity(c: Crypto, sec: Secrets, pre: Mgr, post: Mgr, ref: nat)
    requires Core(c, sec, pre) && Drained(c, sec.priv, pre, post) && ref < |post.heap|
    ensures ref < |pre.heap|
    ensures post.heap[ref].scope == pre.heap[ref].scope && post.heap[ref].path == pre.heap[ref].path
  {
    hide Base, AccountsOK, HeapOK, SameAccounts, PoppedFilled, Filled, HeapFilled, Structured;
    HeapSize(c, sec.priv, pre, post.heap);
    FilledKeepsIdentity(c, sec.priv, pre, post.heap, ref);
  }

  lemma RestoredAccounts(c: Crypto, sec: Secrets, m: Mgr, back: Mgr)
    requires MgrOK(c, sec, m) && !m.locked && MgrOK(c, sec, back) && !back.locked
    requires Core(c, sec, LockOf(m)) && Drained(c, sec.priv, LockOf(m), back)
    ensures back.scopes.Keys == m.scopes.Keys
    ensures forall sc :: sc in m.scopes ==> back.scopes[sc].accounts == m.scopes[sc].accounts
  {
    hide Base, HeapOK, AccountsOK, Structured, OpenKey, HeapFilled, PoppedFilled, LockOf, IsSuffix;
    assert LockOf(m).scopes.Keys == m.scopes.Keys by { LockFacts(m); }
    forall sc | sc in m.scopes ensures back.scopes[sc].accounts == m.scopes[sc].accounts {
      LockedScopeFacts(m, sc);
      assert SameAccounts(LockOf(m).scopes[sc], back.scopes[sc]);
      forall n | n in m.scopes[sc].accounts ensures back.scopes[sc].accounts[n] == m.scopes[sc].accounts[n] {
        SameOpened(m.scopes[sc].accounts[n], back.scopes[sc].accounts[n]);
      }
    }
  }

  lemma SameOpened(a: Account, b: Account)
    requires b.(keyPriv := None) == a.(keyPriv := None).(keyPriv := None)
    ensures b.keyEnc == a.keyEnc
    ensures b.keyPriv == a.keyPriv ==> a == b
  {
    assert b == b.(keyPriv := None).(keyPriv := b.keyPriv);
    assert a == a.(keyPriv := None).(keyPriv := a.keyPriv);
    assert b.(keyPriv := None).keyEnc == b.keyEnc;
  }
}
