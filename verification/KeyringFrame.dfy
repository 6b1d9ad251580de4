/** What the operations leave alone: lock state, keys, salt and hash of a manager change in
    Lock, Unlock and a reopening only, and there exactly as stated here.
 */
module KeyringFrame {
  import opened ByteCodec
  import opened Errors
  import opened Primitives
  import opened Snacl
  import opened AccountRow
  import opened AccountTable
  import opened Keyring
  import opened KeyringAddresses
  import opened KeyringRuns
  import opened ScopeCreation

  /** Only the caches, the queues and the addresses may differ. */
  predicate SameHeader(m: Mgr, n: Mgr) { n == m.(scopes := n.scopes, heap := n.heap) }

  lemma ManagedKeepsHeader(c: Crypto, m: Mgr, sc: KeyScope, key: ExtKey, path: Path, acctPriv: Option<ExtKey>,
                           rand: Prng, i: nat)
    requires sc in m.scopes
    ensures SameHeader(m, KeyToManaged(c, m, sc, key, path, acctPriv, rand, i).0)
  {
    hide NewAddress;
  }

  lemma LoadKeepsHeader(c: Crypto, m: Mgr, db: Db, sc: KeyScope, n: uint32, rand: Prng)
    requires sc in m.scopes
    ensures SameHeader(m, LoadAccount(c, m, db, sc, n, rand).0)
  {
    hide OpenKey, DeriveKey, KeyToManaged, AccountFrom, WorkingKey;
    forall row: AcctRow, pub: ExtKey, key: ExtKey
      ensures SameHeader(m, KeyToManaged(c, m, sc, key, Path(n, EXTERNAL, LastIndex(row)),
                                         AccountFrom(c, m, row, pub).keyPriv, rand, 0).0)
    {
      ManagedKeepsHeader(c, m, sc, key, Path(n, EXTERNAL, LastIndex(row)), AccountFrom(c, m, row, pub).keyPriv, rand,
                         0);
    }
  }

  lemma DeriveKeepsHeader(c: Crypto, m: Mgr, db: Db, sc: KeyScope, path: Path, rand: Prng)
    requires sc in m.scopes
    ensures SameHeader(m, DeriveAddress(c, m, db, sc, path, rand).0)
    ensures SameHeader(m, CacheAddress(c, m, db, sc, path, rand).0)
  {
    hide LoadAccount, DeriveKey, NewAddress, WorkingKey;
    LoadKeepsHeader(c, m, db, sc, path.account, rand);
  }

  lemma ReadBackKeepsHeader(c: Crypto, m: Mgr, db: Db, sc: KeyScope, ma: Address, rand: Prng)
    requires sc in m.scopes
    ensures SameHeader(m, ReadBack(c, m, db, sc, ma, rand).0)
  {
    hide CacheAddress, Printed;
    DeriveKeepsHeader(c, m, db, sc, ma.path, rand);
  }

  lemma {:induction false} CacheAllKeepsHeader(c: Crypto, m: Mgr, db: Db, sc: KeyScope, made: seq<Address>,
                                                   rand: Prng, i: nat)
    requires sc in m.scopes
    ensures SameHeader(m, CacheAll(c, m, db, sc, made, rand, i).0)
    decreases |made|
  {
    hide ReadBack;
    if made != [] {
      ReadBackKeepsHeader(c, m, db, sc, made[0], Later(rand, i));
      CacheAllKeepsHeader(c, ReadBack(c, m, db, sc, made[0], Later(rand, i)).0, db, sc, made[1..], rand, i + 2);
    }
  }

  lemma {:induction false} CommitAllKeepsHeader(c: Crypto, m: Mgr, sc: KeyScope, made: seq<Address>)
    requires sc in m.scopes
    ensures SameHeader(m, CommitAll(c, m, sc, made))
    decreases |made|
  {
    if made != [] {
      CommitAllKeepsHeader(c, CommitOne(c, m, sc, made[0]), sc, made[1..]);
    }
  }

  lemma CommitBatchKeepsHeader(c: Crypto, m: Mgr, sc: KeyScope, n: uint32, q: Ask, next: uint32, made: seq<Address>)
    requires sc in m.scopes && n in m.scopes[sc].accounts
    ensures SameHeader(m, CommitBatch(c, m, sc, n, q, next, made))
  {
    hide CommitAll;
    var last := if made == [] then 0 else |m.heap| + (|made| - 1);
    CommitAllKeepsHeader(c, WithAccount(m, sc, n, Moved(m.scopes[sc].accounts[n], q, next, last)), sc, made);
  }

  lemma StoreBatchKeepsHeader(c: Crypto, m: Mgr, db: Db, sc: KeyScope, n: uint32, q: Ask, s: seq<uint32>,
                                  made: seq<Address>, rand: Prng)
    requires sc in m.scopes
    ensures SameHeader(m, StoreBatch(c, m, db, sc, n, q, s, made, rand).0)
  {
    hide CacheAll, CommitBatch, MoveRow, Refs;
    CacheAllKeepsHeader(c, m, db, sc, made, rand, 1 + |made|);
    var m2 := CacheAll(c, m, db, sc, made, rand, 1 + |made|).0;
    if s != [] && n in m2.scopes[sc].accounts {
      CommitBatchKeepsHeader(c, m2, sc, n, q, (s[|s| - 1] + 1) % W32, made);
    }
  }

  lemma NextKeepsHeader(c: Crypto, m: Mgr, db: Db, sc: KeyScope, n: uint32, q: Ask, rand: Prng)
    requires sc in m.scopes
    ensures SameHeader(m, NextAddresses(c, m, db, sc, n, q, rand).0)
  {
    hide LoadAccount, Indices, BuildAll, StoreBatch;
    LoadKeepsHeader(c, m, db, sc, n, rand);
    var (m1, loaded) := LoadAccount(c, m, db, sc, n, rand);
    if loaded.Ok? && Indices(c, m1, m1.scopes[sc].accounts[n], q).Ok? {
      var s := Indices(c, m1, m1.scopes[sc].accounts[n], q).value;
      var made := BuildAll(c, m1, sc, m1.scopes[sc].accounts[n], n, Allocation.Branch(q), s, rand, 1);
      if made.Ok? {
        StoreBatchKeepsHeader(c, m1, db, sc, n, q, s, made.value, rand);
      }
    }
  }

  /** Every operation but Lock, Unlock and a reopening keeps all the rest. */
  lemma StepKeepsHeader(c: Crypto, w: World, op: Op, w': World)
    requires Step(c, w, op, w') && !op.DoLock? && !op.DoUnlock? && !op.DoReopen?
    ensures SameHeader(w.m, w'.m) && w'.accepted == w.accepted
  {
    hide Structured, LockOf, Unlocks, LoadAccount, DeriveAddress, CacheAddress, NextAddresses, OpenKey, Decrypt,
      CreateScope, After;
    match op
    case DoLoad(sc, n, rand) => if sc in w.m.scopes { LoadKeepsHeader(c, w.m, w.db, sc, n, rand); }
    case DoDerive(sc, path, rand) => if sc in w.m.scopes { DeriveKeepsHeader(c, w.m, w.db, sc, path, rand); }
    case DoCache(sc, path, rand) => if sc in w.m.scopes { DeriveKeepsHeader(c, w.m, w.db, sc, path, rand); }
    case DoNextAddresses(sc, n, q, rand) => if sc in w.m.scopes { NextKeepsHeader(c, w.m, w.db, sc, n, q, rand); }
    case DoEvict(sc, id) =>
    case DoPrivKey(ref) =>
    case DoNewAccount(sc, q) =>
    case DoNewScope(sc, schema, rand) =>
  }

  // -------------------------------------------------------------- lock and unlock

  lemma LockHeader(m: Mgr)
    ensures LockOf(m).locked && LockOf(m).params == m.params && LockOf(m).salt == m.salt && LockOf(m).net == m.net
    ensures LockOf(m).cryptoScript == Zeros(KEY_SIZE) && LockOf(m).cryptoScriptEnc == m.cryptoScriptEnc
    ensures LockOf(m).cryptoPriv == Zeros(KEY_SIZE)
  {
    hide LockedHeap, LockedScopes;
  }

  /** The passphrase is hashed together with the salt: by the fast check, or after a slow
      unlock. */
  predicate Hashes(pre: Mgr, post: Mgr) { !pre.watchingOnly && (!pre.locked || !post.locked) }

  /** What Unlock does to the rest, whatever its outcome: an empty passphrase that is hashed
      clears the salt, and nothing ever fills in the script key. */
  lemma UnlockHeader(c: Crypto, pre: Mgr, pass: Bytes, rand: Prng, post: Mgr, r: Outcome<()>)
    requires Structured(pre) && Unlocks(c, pre, pass, rand, post, r)
    ensures post.net == pre.net && post.params == pre.params && post.cryptoScriptEnc == pre.cryptoScriptEnc
    ensures post.salt == if Hashes(pre, post) then WipedSalt(pre.salt, pass) else pre.salt
    ensures post.cryptoScript == pre.cryptoScript || post.cryptoScript == Zeros(KEY_SIZE)
    ensures pre.locked && !pre.watchingOnly ==> (r.Ok? <==> !post.locked)
  {
    hide Structured, LockOf, Drained, AccountsOpen, Obstacle, Decrypt, RelocksAfter;
    forall m: Mgr
      ensures LockOf(m).locked && LockOf(m).params == m.params && LockOf(m).salt == m.salt && LockOf(m).net == m.net
      ensures LockOf(m).cryptoScript == Zeros(KEY_SIZE) && LockOf(m).cryptoScriptEnc == m.cryptoScriptEnc
    {
      LockHeader(m);
    }
    if pre.locked && r.Err? && !pre.watchingOnly {
      RelockedHeader(c, pre, pass, rand, post, r);
    }
  }

  lemma RelockedHeader(c: Crypto, pre: Mgr, pass: Bytes, rand: Prng, post: Mgr, r: Outcome<()>)
    requires Structured(pre) && Unlocks(c, pre, pass, rand, post, r) && pre.locked && r.Err? && !pre.watchingOnly
    ensures post.locked && post.params == pre.params && post.salt == pre.salt && post.net == pre.net
    ensures post.cryptoScript == Zeros(KEY_SIZE) && post.cryptoScriptEnc == pre.cryptoScriptEnc
  {
    hide Structured, LockOf, Drained, Obstacle, Decrypt;
    forall m: Mgr
      ensures LockOf(m).locked && LockOf(m).params == m.params && LockOf(m).salt == m.salt && LockOf(m).net == m.net
      ensures LockOf(m).cryptoScript == Zeros(KEY_SIZE) && LockOf(m).cryptoScriptEnc == m.cryptoScriptEnc
    {
      LockHeader(m);
    }
  }

  // ---------------------------------------------------------------- the script key

  /** Nothing in a run ever fills in the script key: blank at the start, it is blank in every
      later state, while the sealed one stays stored. */
  lemma {:induction false} ScriptKeyStaysBlank(c: Crypto, ws: seq<World>, ops: seq<Op>, i: nat)
    requires IsRun(c, ws, ops) && i < |ws| && ws[0].m.cryptoScript == Zeros(KEY_SIZE)
    ensures ws[i].m.cryptoScript == Zeros(KEY_SIZE) && ws[i].m.cryptoScriptEnc == ws[0].m.cryptoScriptEnc
    ensures ws[i].m.net == ws[0].m.net
    decreases i
  {
    hide Step;
    if i > 0 {
      ScriptKeyStaysBlank(c, ws, ops, i - 1);
      StepKeepsScript(c, ws[i - 1], ops[i - 1], ws[i]);
    }
  }

  lemma StepKeepsScript(c: Crypto, w: World, op: Op, w': World)
    requires Step(c, w, op, w')
    ensures w'.m.cryptoScript == w.m.cryptoScript || w'.m.cryptoScript == Zeros(KEY_SIZE)
    ensures w'.m.cryptoScriptEnc == w.m.cryptoScriptEnc && w'.m.net == w.m.net
  {
    hide Structured, LockOf, Unlocks;
    match op
    case DoLock => LockHeader(w.m);
    case DoUnlock(pass, rand) =>
      var r :| Unlocks(c, w.m, pass, rand, w'.m, r);
      UnlockHeader(c, w.m, pass, rand, w'.m, r);
    case DoReopen(salt) =>
    case _ => StepKeepsHeader(c, w, op, w');
  }

  // ---------------------------------------------------------------------- the salt

  /** An Unlock with the empty passphrase that gets as far as hashing it. */
  predicate EmptyHashed(w: World, op: Op, w': World) {
    op.DoUnlock? && op.pass == [] && Hashes(w.m, w'.m)
  }

  ghost predicate EmptyHashedBetween(ws: seq<World>, ops: seq<Op>, i: nat, j: nat) {
    exists k :: i <= k < j && k < |ops| && k + 1 < |ws| && EmptyHashed(ws[k], ops[k], ws[k + 1])
  }

  lemma StepSalt(c: Crypto, w: World, op: Op, w': World)
    requires Step(c, w, op, w') && !op.DoReopen? && |w.m.salt| == SALT_SIZE
    ensures w'.m.salt == if EmptyHashed(w, op, w') then Zeros(SALT_SIZE) else w.m.salt
  {
    hide Structured, LockOf, Unlocks;
    match op
    case DoLock => LockHeader(w.m);
    case DoUnlock(pass, rand) =>
      var r :| Unlocks(c, w.m, pass, rand, w'.m, r);
      UnlockHeader(c, w.m, pass, rand, w'.m, r);
    case _ => StepKeepsHeader(c, w, op, w');
  }

  /** The salt of a manager over any stretch of a run, exactly: it is the one it was opened
      with until an empty passphrase is hashed, and zeros from then on until it is reopened. */
  lemma {:induction false} RunSalt(c: Crypto, ws: seq<World>, ops: seq<Op>, i: nat, j: nat)
    requires IsRun(c, ws, ops) && i <= j < |ws| && SameManager(ops, i, j) && |ws[i].m.salt| == SALT_SIZE
    ensures ws[j].m.salt == if EmptyHashedBetween(ws, ops, i, j) then Zeros(SALT_SIZE) else ws[i].m.salt
    decreases j
  {
    hide Step, EmptyHashed;
    if i < j {
      RunSalt(c, ws, ops, i, j - 1);
      StepSalt(c, ws[j - 1], ops[j - 1], ws[j]);
      if EmptyHashedBetween(ws, ops, i, j) && !EmptyHashed(ws[j - 1], ops[j - 1], ws[j]) {
        assert EmptyHashedBetween(ws, ops, i, j - 1);
      }
    }
  }
}
