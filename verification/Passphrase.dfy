/** The fast passphrase check of an unlocked manager (a salted SHA-512) against the slow
    one of a locked manager (scrypt and a key digest).
 */
module Passphrase {
  import opened ByteCodec
  import opened Errors
  import opened Primitives
  import opened Snacl
  import opened AccountTable
  import opened Keyring
  import opened KeyringAddresses
  import opened KeyringRuns
  import opened KeyringFrame
  import opened ScopeCreation

  /** What Unlock tests on an unlocked manager. */
  predicate FastAccepts(c: Crypto, m: Mgr, pass: Bytes) {
    c.sha512(m.salt + pass) == m.hashed
  }

  /** While unlocked, the stored hash is that of the salt and the last passphrase the
      slow path accepted, which is one of those tried. */
  ghost predicate HashOK(c: Crypto, w: World, tried: set<Bytes>) {
    && |w.m.salt| == SALT_SIZE
    && (!w.m.locked ==>
          && w.m.hashed == c.sha512(w.m.salt + w.accepted)
          && Accepts(c, w.m.params, w.accepted) && w.accepted in tried)
  }

  /** What a run that tries the empty passphrase needs: the slow path refuses it, and no
      salted passphrase that is tried hashes like the bare salt. */
  ghost predicate EmptyIsHarmless(c: Crypto, params: Params, tried: set<Bytes>) {
    [] in tried ==>
      && !Accepts(c, params, [])
      && forall salt, p :: |salt| == SALT_SIZE && p in tried && p != [] ==> c.sha512(salt + p) != c.sha512(salt)
  }

  /** SHA-512 tells the passphrases of a given set apart under any salt of a manager. */
  ghost predicate HashSeparates(c: Crypto, tried: set<Bytes>) {
    forall salt, p, q ::
      |salt| == SALT_SIZE && p in tried && q in tried && c.sha512(salt + p) == c.sha512(salt + q) ==> p == q
  }

  /** The slow path accepts at most one of the passphrases of a given set. */
  ghost predicate SlowSeparates(c: Crypto, params: Params, tried: set<Bytes>) {
    forall p, q :: p in tried && q in tried && Accepts(c, params, p) && Accepts(c, params, q) ==> p == q
  }

  ghost predicate Tries(op: Op, tried: set<Bytes>) {
    op.DoUnlock? ==> op.pass in tried
  }

  ghost predicate AllTried(ops: seq<Op>, tried: set<Bytes>) {
    forall j :: 0 <= j < |ops| ==> Tries(ops[j], tried)
  }

  lemma UnlockHash(c: Crypto, w: World, pass: Bytes, rand: Prng, post: Mgr, r: Outcome<()>, tried: set<Bytes>)
    requires EmptyIsHarmless(c, w.m.params, tried) && pass in tried && HashOK(c, w, tried)
    requires Structured(w.m) && Unlocks(c, w.m, pass, rand, post, r)
    ensures post.params == w.m.params
    ensures HashOK(c, w.(m := post, accepted := if w.m.locked && r.Ok? then pass else w.accepted), tried)
  {
    hide Structured, LockOf, Drained, AccountsOpen, Obstacle, Decrypt, RelocksAfter;
    UnlockHeader(c, w.m, pass, rand, post, r);
    assert w.m.salt + [] == w.m.salt;
    if !w.m.locked { LockHeader(w.m.(salt := WipedSalt(w.m.salt, pass))); }
  }

  lemma StepHash(c: Crypto, w: World, op: Op, w': World, tried: set<Bytes>)
    requires EmptyIsHarmless(c, w.m.params, tried) && Tries(op, tried) && HashOK(c, w, tried) && Step(c, w, op, w')
    ensures HashOK(c, w', tried) && w'.m.params == w.m.params
  {
    hide EmptyIsHarmless, Structured, LockOf, Unlocks, Accepts;
    match op
    case DoLock => LockHeader(w.m);
    case DoUnlock(pass, rand) =>
      var r :| Unlocks(c, w.m, pass, rand, w'.m, r) &&
               w' == w.(m := w'.m, accepted := if w.m.locked && r.Ok? then pass else w.accepted);
      UnlockHash(c, w, pass, rand, w'.m, r, tried);
    case DoReopen(salt) =>
    case _ => StepKeepsHeader(c, w, op, w');
  }

  /** In every state of every run the hash of an unlocked manager is that of the last
      accepted passphrase.  A run that never tries the empty passphrase needs no assumption
      on the hash at all. */
  lemma {:induction false} RunHash(c: Crypto, ws: seq<World>, ops: seq<Op>, i: nat, tried: set<Bytes>)
    requires IsRun(c, ws, ops) && i < |ws| && AllTried(ops, tried)
    requires EmptyIsHarmless(c, ws[0].m.params, tried) && HashOK(c, ws[0], tried)
    ensures HashOK(c, ws[i], tried) && ws[i].m.params == ws[0].m.params
    decreases i
  {
    hide EmptyIsHarmless, Step, HashOK, Tries;
    if i > 0 {
      RunHash(c, ws, ops, i - 1, tried);
      StepHash(c, ws[i - 1], ops[i - 1], ws[i], tried);
    }
  }

  /** In every unlocked state of every run, if the hash separates the passphrases tried: the
      fast check accepts exactly the last accepted one, so it agrees with the slow path on
      all of them if and only if the slow path accepts no other. */
  lemma FastAgreesExactly(c: Crypto, ws: seq<World>, ops: seq<Op>, i: nat, tried: set<Bytes>)
    requires IsRun(c, ws, ops) && i < |ws| && AllTried(ops, tried) && HashOK(c, ws[0], tried)
    requires HashSeparates(c, tried) && ([] in tried ==> !Accepts(c, ws[0].m.params, [])) && !ws[i].m.locked
    ensures forall p :: p in tried ==> (FastAccepts(c, ws[i].m, p) <==> p == ws[i].accepted)
    ensures (forall p :: p in tried ==> (FastAccepts(c, ws[i].m, p) <==> Accepts(c, ws[i].m.params, p)))
            <==> (forall p :: p in tried && Accepts(c, ws[i].m.params, p) ==> p == ws[i].accepted)
  {
    hide IsRun, AllTried, Accepts;
    assert EmptyIsHarmless(c, ws[0].m.params, tried) by { SeparatesEmpty(c, ws[0].m.params, tried); }
    RunHash(c, ws, ops, i, tried);
  }

  lemma SeparatesEmpty(c: Crypto, params: Params, tried: set<Bytes>)
    requires HashSeparates(c, tried) && ([] in tried ==> !Accepts(c, params, []))
    ensures EmptyIsHarmless(c, params, tried)
  {
    hide Accepts;
    forall salt: Bytes, p | |salt| == SALT_SIZE && [] in tried && p in tried && p != []
      ensures c.sha512(salt + p) != c.sha512(salt) {
      assert salt + [] == salt;
    }
  }

  /** The fast check of an unlocked manager and the slow path accept the same passphrases in
      every reachable state, where each separates the passphrases tried. */
  lemma FastAgreesWithSlow(c: Crypto, ws: seq<World>, ops: seq<Op>, i: nat, tried: set<Bytes>, p: Bytes)
    requires IsRun(c, ws, ops) && i < |ws| && AllTried(ops, tried) && HashOK(c, ws[0], tried)
    requires HashSeparates(c, tried) && SlowSeparates(c, ws[0].m.params, tried)
    requires ([] in tried ==> !Accepts(c, ws[0].m.params, []))
    requires !ws[i].m.locked && p in tried
    ensures FastAccepts(c, ws[i].m, p) <==> Accepts(c, ws[i].m.params, p)
  {
    hide IsRun, AllTried, Accepts, HashSeparates, FastAccepts;
    FastAgreesExactly(c, ws, ops, i, tried);
    assert EmptyIsHarmless(c, ws[0].m.params, tried) by { SeparatesEmpty(c, ws[0].m.params, tried); }
    RunHash(c, ws, ops, i, tried);
  }

  /** The verdict of Unlock on an unlocked manager, in every reachable state: it accepts
      exactly the last accepted passphrase and then changes nothing; any other is reported as
      wrong and locks the manager.  Where the slow path tells the passphrases tried apart, it
      is the slow path's verdict. */
  lemma FastUnlockExact(c: Crypto, ws: seq<World>, ops: seq<Op>, i: nat, tried: set<Bytes>, p: Bytes, rand: Prng,
                        post: Mgr, r: Outcome<()>)
    requires IsRun(c, ws, ops) && i < |ws| && AllTried(ops, tried) && HashOK(c, ws[0], tried) && p in tried
    requires HashSeparates(c, tried) && ([] in tried ==> !Accepts(c, ws[0].m.params, []))
    requires !ws[i].m.locked && !ws[i].m.watchingOnly && Structured(ws[i].m) && Unlocks(c, ws[i].m, p, rand, post, r)
    ensures r.Ok? <==> p == ws[i].accepted
    ensures r.Ok? ==> post == ws[i].m && !post.locked
    ensures !r.Ok? ==> r == Err(ErrWrongPassphrase) && post.locked && post.cryptoPriv == Zeros(KEY_SIZE)
    ensures SlowSeparates(c, ws[0].m.params, tried) ==> (r.Ok? <==> Accepts(c, ws[i].m.params, p))
  {
    hide IsRun, AllTried, Structured, LockOf, OpensWith, DeriveKeySpec, Decrypt;
    FastAgreesExactly(c, ws, ops, i, tried);
    assert EmptyIsHarmless(c, ws[0].m.params, tried) by { SeparatesEmpty(c, ws[0].m.params, tried); }
    RunHash(c, ws, ops, i, tried);
    var wiped := ws[i].m.(salt := WipedSalt(ws[i].m.salt, p));
    LockHeader(wiped);
  }

  /** After a successful slow unlock the fast check accepts that passphrase if and only if it
      is not empty (or the hash happens not to tell the old salt from zeros).  Create refuses
      an empty passphrase, so the exception takes one that collides with the true one. */
  lemma EmptyPassphraseClearsSalt(c: Crypto, pre: Mgr, pass: Bytes, rand: Prng, post: Mgr)
    requires Structured(pre) && pre.locked && !pre.watchingOnly && Unlocks(c, pre, pass, rand, post, Ok(()))
    ensures FastAccepts(c, post, pass) <==> pass != [] || c.sha512(Zeros(SALT_SIZE)) == c.sha512(pre.salt)
  {
    hide Drained, AccountsOpen, Decrypt, EntryCached;
    assert pre.salt + [] == pre.salt && Zeros(SALT_SIZE) + [] == Zeros(SALT_SIZE);
  }

  /** On an unlocked manager any Unlock with the empty passphrase clears the salt, although
      it is refused. */
  lemma EmptyTryClearsSalt(c: Crypto, pre: Mgr, rand: Prng, post: Mgr, r: Outcome<()>)
    requires Structured(pre) && !pre.locked && !pre.watchingOnly && Unlocks(c, pre, [], rand, post, r)
    ensures post.salt == Zeros(SALT_SIZE)
    ensures c.sha512(pre.salt) != pre.hashed ==> r == Err(ErrWrongPassphrase) && post.locked
  {
    hide LockOf;
    assert |pre.salt| == SALT_SIZE by { hide EntryCached; }
    assert pre.salt + [] == pre.salt;
    LockHeader(pre.(salt := Zeros(SALT_SIZE)));
  }

  /** From then on until the manager is reopened every stored hash is salted with zeros. */
  lemma HashesAreUnsalted(c: Crypto, ws: seq<World>, ops: seq<Op>, i: nat, j: nat, tried: set<Bytes>)
    requires IsRun(c, ws, ops) && i <= j < |ws| && AllTried(ops, tried) && SameManager(ops, i, j)
    requires EmptyIsHarmless(c, ws[0].m.params, tried) && HashOK(c, ws[0], tried)
    requires EmptyHashedBetween(ws, ops, i, j)
    ensures ws[j].m.salt == Zeros(SALT_SIZE)
    ensures !ws[j].m.locked ==> ws[j].m.hashed == c.sha512(Zeros(SALT_SIZE) + ws[j].accepted)
  {
    hide IsRun, AllTried, EmptyIsHarmless, EmptyHashedBetween, Accepts, SameManager;
    RunHash(c, ws, ops, i, tried);
    RunHash(c, ws, ops, j, tried);
    RunSalt(c, ws, ops, i, j);
  }
}
