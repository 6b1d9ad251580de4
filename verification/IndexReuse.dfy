/** The one way an address index comes back: an account created anew under its old number
    starts over in the database, and a reopened manager reads its counters from there.
 */
module IndexReuse {
  import opened ByteCodec
  import opened Errors
  import opened Primitives
  import opened Snacl
  import opened AccountTable
  import opened Keyring
  import opened KeyringInvariant
  import opened KeyringAddresses
  import opened KeyringRuns
  import opened AllocationRuns
  import opened KeyringFrame

  lemma NewRowIsUnused(c: Crypto, ring: Ring, coinPub: Option<Bytes>, coinPriv: Option<Bytes>, n: uint32, x: Bytes,
                       rand: Prng)
    requires AccountRowFor(c, ring, coinPub, coinPriv, n, x, rand).Ok?
    ensures var row := AccountRowFor(c, ring, coinPub, coinPriv, n, x, rand).value;
            row.nextExternal == 0 && row.nextInternal == 0
  {
    hide Decrypt, DeriveAccountKey, Nonce;
  }

  lemma OverwrittenRow(c: Crypto, w: World, op: Op, w': World, sc: KeyScope, n: uint32)
    requires Overwrites(c, w, op, sc, n) && Step(c, w, op, w')
    ensures w'.m == w.m && sc in w'.db && n in w'.db[sc].table.rows
    ensures w'.db[sc].table.rows[n].nextExternal == 0 && w'.db[sc].table.rows[n].nextInternal == 0
  {
    hide Serve, Number, Name, AccountRowFor, Storable;
    var ring := Ring(w.m.cryptoPub, w.m.cryptoPriv);
    ServedTable(c, ring, w.db[sc], op.q);
    NewRowIsUnused(c, ring, w.db[sc].coinPub, w.db[sc].coinPriv, n, Name(op.q), op.q.rand);
  }

  /** Creating account n anew and reopening sets both branches back to index 0. */
  lemma OverwriteAndReopenRestart(c: Crypto, w: World, op: Op, w1: World, salt: Bytes, w2: World, sc: KeyScope,
                                  n: uint32, internal: bool)
    requires Overwrites(c, w, op, sc, n) && Step(c, w, op, w1) && Step(c, w1, DoReopen(salt), w2) && |salt| == SALT_SIZE
    ensures NextIndex(w2, sc, n, internal) == 0 && !Cached(w2.m, sc, n)
  {
    hide Overwrites;
    OverwrittenRow(c, w, op, w1, sc, n);
  }

  /** Two requests that start at the same index hand out the same first index. */
  lemma SameStartSameIndex(c: Crypto, sec: Secrets, ws: seq<World>, ops: seq<Op>, i: nat, j: nat, sc: KeyScope,
                           n: uint32, internal: bool, earlier: seq<nat>, later: seq<nat>)
    requires Lawful(c) && IsRun(c, ws, ops) && AllOK(c, sec, ws)
    requires HandedAt(c, ws, ops, i, sc, n, internal, earlier) && HandedAt(c, ws, ops, j, sc, n, internal, later)
    requires NextIndex(ws[i], sc, n, internal) == NextIndex(ws[j], sc, n, internal)
    ensures |earlier| > 0 && |later| > 0 && earlier[0] < |ws[i + 1].m.heap| && later[0] < |ws[j + 1].m.heap|
    ensures ws[i + 1].m.heap[earlier[0]].path.index == ws[j + 1].m.heap[later[0]].path.index
  {
    hide Lawful, IsRun, WorldOK, HandedAt, AccountKey, A.Choose, NextIndex, InStep;
    var s, locked1 := HandedIndices(c, sec, ws, ops, i, sc, n, internal, earlier);
    var t, locked2 := HandedIndices(c, sec, ws, ops, j, sc, n, internal, later);
    HandedAsks(c, ws, ops, i, sc, n, internal, earlier);
    HandedAsks(c, ws, ops, j, sc, n, internal, later);
    var k, from := AccountKey(c, sec.root, sc, n).value, NextIndex(ws[i], sc, n, internal);
    StartsBelow(c, k, locked1, from, ops[i].ask, locked2, from, ops[j].ask, s[0]);
    StartsBelow(c, k, locked2, from, ops[j].ask, locked1, from, ops[i].ask, t[0]);
  }

  // ------------------------------------------------------------ such a run exists

  const ONE: Ask := A.Ask(false, 1)

  ghost predicate Delivers(rand: Prng) { forall i: nat :: rand(i).Some? && |rand(i).value| >= 32 }

  lemma DeliversReads(rand: Prng)
    requires Delivers(rand)
    ensures Nonce(rand, 0).Some? && Nonce(rand, 1).Some? && BatchReads(rand, 1)
  {
    assert rand(0).Some? && rand(1).Some?;
    assert TwoReads(rand, 1) && TwoReads(rand, 3);
    assert ReadsFor(rand, 2, 1, 0) && ReadsFor(rand, 5, 2, 0);
    assert ReadsFor(rand, 1, 1, 1) && ReadsFor(rand, 3, 2, 1);
  }

  /** The account's first external child exists, for both forms of its key. */
  lemma FirstChild(c: Crypto, k: ExtKey)
    requires Lawful(c) && k.isPrivate && c.neuter(k).Some? && DeriveKey(c, Some(k), EXTERNAL, 0).Ok?
    ensures DeriveKey(c, c.neuter(k), EXTERNAL, 0).Ok?
    ensures A.Choose(c, k, 0, ONE) == Ok([0]) && A.Choose(c, c.neuter(k).value, 0, ONE) == Ok([0])
  {
    hide Lawful;
    SameChildren(c, k, EXTERNAL, 0);
    OnlyZero(c, c.child(k, EXTERNAL).key);
    OnlyZero(c, c.child(c.neuter(k).value, EXTERNAL).key);
  }

  lemma OnlyZero(c: Crypto, b: ExtKey)
    requires c.child(b, 0).Child?
    ensures A.First(c, b, 0, 1) == Ok([0])
  {
    assert A.First(c, b, 1, 0) == Ok([]);
    assert [0] + [] == [0];
  }

  /** An account whose first request is still to come. */
  ghost predicate Unused(c: Crypto, sec: Secrets, w: World, sc: KeyScope, n: uint32) {
    && w.m.net && sc in w.m.scopes && sc in w.db && n in w.db[sc].table.rows && n != IMPORTED
    && NextIndex(w, sc, n, false) == 0 && w.db[sc].table.rows[n].nextExternal == 0
    && KeyType(w.m.scopes[sc].schema.external)
    && AccountKey(c, sec.root, sc, n).Ok? && DeriveKey(c, Some(AccountKey(c, sec.root, sc, n).value), EXTERNAL, 0).Ok?
  }

  /** A request for one external address on an unused account succeeds. */
  lemma FirstRequest(c: Crypto, sec: Secrets, w: World, sc: KeyScope, n: uint32, rand: Prng)
    requires Lawful(c) && WorldOK(c, sec, w) && Unused(c, sec, w, sc, n) && Delivers(rand)
    ensures NextAddresses(c, w.m, w.db, sc, n, ONE, rand).2.Ok?
  {
    hide Lawful, WorldOK, MgrOK, NextAddresses, LoadAccount, DeriveKey, AccountKey, Indices, BatchReads, A.Choose,
      Delivers, TwoReads, Loaded;
    assert MgrOK(c, sec, w.m) && DbOK(c, sec, w.db) by { PartsOK(c, sec, w); }
    var k := AccountKey(c, sec.root, sc, n).value;
    assert k.isPrivate && c.neuter(k).Some? by { StoredKey(c, sec, w, sc, n); }
    FirstChild(c, k);
    DeliversReads(rand);
    assert LoadAccount(c, w.m, w.db, sc, n, rand).1.Ok? by { FirstLoad(c, sec, w, sc, n, rand); }
    NextAfterLoad(c, w.m, w.db, sc, n, ONE, rand);
    LoadAccountOK(c, sec, w.m, w.db, sc, n, rand);
    var m1 := LoadAccount(c, w.m, w.db, sc, n, rand).0;
    WorkingIs(c, sec, m1, sc, n);
    LoadedIndex(c, w, sc, n, rand, false);
    assert Indices(c, m1, m1.scopes[sc].accounts[n], ONE) == Ok([0]) by {
      ChosenIndices(c, m1, m1.scopes[sc].accounts[n], ONE);
    }
    FirstBatch(c, sec, m1, w.db, sc, n, rand);
  }

  lemma FirstBatch(c: Crypto, sec: Secrets, m: Mgr, db: Db, sc: KeyScope, n: uint32, rand: Prng)
    requires Lawful(c) && MgrOK(c, sec, m) && DbOK(c, sec, db) && sc in m.scopes && n in m.scopes[sc].accounts
    requires sc in db && n in db[sc].table.rows && m.net && KeyType(m.scopes[sc].schema.external) && BatchReads(rand, 1)
    requires Indices(c, m, m.scopes[sc].accounts[n], ONE) == Ok([0])
    ensures NextAddresses(c, m, db, sc, n, ONE, rand).2.Ok?
  {
    hide Lawful, MgrOK, DbOK, NextAddresses, Indices, BatchReads, ToHandOut;
    IndicesExact(c, m, m.scopes[sc].accounts[n], ONE);
    NextAddressesExact(c, sec, m, db, sc, n, ONE, rand);
  }

  lemma ChosenIndices(c: Crypto, m: Mgr, a: Account, q: Ask)
    requires WorkingKey(m, a).Some?
    ensures Indices(c, m, a, q) == A.Choose(c, WorkingKey(m, a).value, AccountIndex(a, q.internal), q)
  {
  }

  lemma StoredKey(c: Crypto, sec: Secrets, w: World, sc: KeyScope, n: uint32)
    requires Lawful(c) && WorldOK(c, sec, w) && sc in w.db && n in w.db[sc].table.rows && n != IMPORTED
    ensures AccountKey(c, sec.root, sc, n).Ok? && AccountKey(c, sec.root, sc, n).value.isPrivate
    ensures c.neuter(AccountKey(c, sec.root, sc, n).value).Some?
  {
    hide Lawful, MgrOK, AccountKey, OpenKey, TablesOK;
    RootOf(c, sec, w.m);
    assert ScopeOK(c, sec, sc, w.db[sc]);
    assert RowOK(c, sec, sc, n, w.db[sc].table.rows[n]);
    AccountKeyPrivate(c, sec.root, sc, n);
  }

  lemma FirstLoad(c: Crypto, sec: Secrets, w: World, sc: KeyScope, n: uint32, rand: Prng)
    requires Lawful(c) && WorldOK(c, sec, w) && Unused(c, sec, w, sc, n) && Delivers(rand)
    ensures LoadAccount(c, w.m, w.db, sc, n, rand).1.Ok?
  {
    hide Lawful, WorldOK, MgrOK, DbOK, TablesOK, LoadRowInto, DeriveKey, AccountKey, Loaded;
    if n !in w.m.scopes[sc].accounts {
      PartsOK(c, sec, w);
      StoredKey(c, sec, w, sc, n);
      FirstChild(c, AccountKey(c, sec.root, sc, n).value);
      assert TwoReads(rand, 0) by { assert rand(0).Some? && rand(1).Some?; }
      LoadAccountExact(c, sec, w.m, w.db, sc, n, rand);
    }
  }

  // ----------------------------------------------------------------- short names

  function Pow10(d: nat): nat { if d == 0 then 1 else 10 * Pow10(d - 1) }

  lemma {:induction false} DecimalShort(n: nat, d: nat)
    requires d > 0 && n < Pow10(d)
    ensures |Decimal(n)| <= d
  {
    assert Pow10(1) == 10 * Pow10(0) == 10;
    if n >= 10 {
      DecimalShort(n / 10, d - 1);
    }
  }

  lemma RawNameShort(n: uint32)
    ensures |RawName(n)| <= 14
  {
    assert Pow10(2) == 100;
    assert Pow10(4) == 10 * (10 * Pow10(2));
    assert Pow10(6) == 10 * (10 * Pow10(4));
    assert Pow10(8) == 10 * (10 * Pow10(6));
    assert Pow10(10) == 10 * (10 * Pow10(8));
    DecimalShort(n, 10);
  }

  // ----------------------------------------------------------------- the witness

  /** NewRawAccount on an existing number succeeds while its raw name is free. */
  lemma RawSucceeds(c: Crypto, sec: Secrets, w: World, sc: KeyScope, n: uint32, rand: Prng)
    requires Lawful(c) && WorldOK(c, sec, w) && !w.m.locked && sc in w.db && n in w.db[sc].table.rows && n != IMPORTED
    requires RawName(n) !in w.db[sc].table.ids && Delivers(rand)
    ensures Overwrites(c, w, DoNewAccount(sc, Raw(n, rand)), sc, n)
  {
    hide Lawful, MgrOK, TablesOK, Serve, AccountKey, Delivers, RawName, BatchReads;
    PartsOK(c, sec, w);
    StoredKey(c, sec, w, sc, n);
    DeliversReads(rand);
    RawNamesDistinct(n, n);
    RawNameShort(n);
    NewAccountExact(c, sec, sc, w.db[sc], Raw(n, rand));
  }

  /** A committed request leaves lock state, scopes, name index and coin-type keys alone. */
  lemma RequestKeeps(c: Crypto, sec: Secrets, w: World, sc: KeyScope, n: uint32, q: Ask, rand: Prng)
    requires Lawful(c) && WorldOK(c, sec, w) && sc in w.m.scopes && sc in w.db && n in w.db[sc].table.rows
    ensures var w' := AfterNextAddresses(c, w, sc, n, q, rand);
            && w'.m.locked == w.m.locked && w'.m.net == w.m.net && w'.m.scopes.Keys == w.m.scopes.Keys
            && w'.m.scopes[sc].schema == w.m.scopes[sc].schema
            && sc in w'.db && w'.db[sc].table.ids == w.db[sc].table.ids && w'.db[sc].coinPub == w.db[sc].coinPub
            && w'.db[sc].table.rows.Keys == w.db[sc].table.rows.Keys
  {
    hide Lawful, MgrOK, DbOK, TablesOK, NextAddresses, Loads, Advances, OpenKey;
    var (m', db', r) := NextAddresses(c, w.m, w.db, sc, n, q, rand);
    NextKeepsHeader(c, w.m, w.db, sc, n, q, rand);
    NextShape(c, sec, w.m, w.db, sc, n, q, rand, m', db', r);
    NextKeepsSchema(c, sec, w.m, w.db, sc, n, q, rand);
    if db' != w.db {
      var m2, s :| Loads(w.m, m2, w.db) && Advances(m2, m', w.db, db', sc, n, q, s);
      AdvancesKeepsTable(m2, m', w.db, db', sc, n, q, s);
    }
  }

  lemma AdvancesKeepsTable(m: Mgr, m': Mgr, db: Db, db': Db, sc: KeyScope, n: uint32, q: Ask, s: seq<uint32>)
    requires Advances(m, m', db, db', sc, n, q, s)
    ensures sc in db && sc in db' && db'[sc].table.ids == db[sc].table.ids && db'[sc].coinPub == db[sc].coinPub
    ensures db'[sc].table.rows.Keys == db[sc].table.rows.Keys
  {
    hide A.StoreAll;
  }

  lemma {:induction false} CommitKeepsSchema(c: Crypto, m: Mgr, sc: KeyScope, made: seq<Address>)
    requires sc in m.scopes
    ensures CommitAll(c, m, sc, made).scopes[sc].schema == m.scopes[sc].schema
    decreases |made|
  {
    if made != [] { CommitKeepsSchema(c, CommitOne(c, m, sc, made[0]), sc, made[1..]); }
  }

  lemma {:induction false} CacheKeepsSchema(c: Crypto, m: Mgr, db: Db, sc: KeyScope, made: seq<Address>, rand: Prng,
                                            i: nat)
    requires sc in m.scopes
    ensures CacheAll(c, m, db, sc, made, rand, i).0.scopes[sc].schema == m.scopes[sc].schema
    decreases |made|
  {
    hide CacheAddress, Printed;
    if made != [] {
      CacheKeepsSchema(c, ReadBack(c, m, db, sc, made[0], Later(rand, i)).0, db, sc, made[1..], rand, i + 2);
    }
  }

  lemma NextKeepsSchema(c: Crypto, sec: Secrets, m: Mgr, db: Db, sc: KeyScope, n: uint32, q: Ask, rand: Prng)
    requires sc in m.scopes
    ensures NextAddresses(c, m, db, sc, n, q, rand).0.scopes.Keys == m.scopes.Keys
    ensures NextAddresses(c, m, db, sc, n, q, rand).0.scopes[sc].schema == m.scopes[sc].schema
  {
    hide LoadAccount, Indices, BuildAll, StoreBatch;
    var (m1, loaded) := LoadAccount(c, m, db, sc, n, rand);
    if loaded.Ok? && Indices(c, m1, m1.scopes[sc].accounts[n], q).Ok? {
      var s := Indices(c, m1, m1.scopes[sc].accounts[n], q).value;
      var made := BuildAll(c, m1, sc, m1.scopes[sc].accounts[n], n, A.Branch(q), s, rand, 1);
      if made.Ok? { StoreKeepsSchema(c, m1, db, sc, n, q, s, made.value, rand); }
    }
  }

  lemma StoreKeepsSchema(c: Crypto, m: Mgr, db: Db, sc: KeyScope, n: uint32, q: Ask, s: seq<uint32>,
                         made: seq<Address>, rand: Prng)
    requires sc in m.scopes
    ensures StoreBatch(c, m, db, sc, n, q, s, made, rand).0.scopes.Keys == m.scopes.Keys
    ensures StoreBatch(c, m, db, sc, n, q, s, made, rand).0.scopes[sc].schema == m.scopes[sc].schema
  {
    hide CacheAll, CommitAll, MoveRow, Refs;
    CacheKeepsSchema(c, m, db, sc, made, rand, 1 + |made|);
    var m2 := CacheAll(c, m, db, sc, made, rand, 1 + |made|).0;
    if s != [] && n in m2.scopes[sc].accounts {
      var last := if made == [] then 0 else |m2.heap| + (|made| - 1);
      CommitKeepsSchema(c, WithAccount(m2, sc, n, Moved(m2.scopes[sc].accounts[n], q, (s[|s| - 1] + 1) % W32, last)),
                        sc, made);
    }
  }

  /** From every sound unlocked state with an unused account there is a run that hands out
      its first external index twice: request, create anew, reopen, request. */
  lemma IndexComesBack(c: Crypto, sec: Secrets, w: World, sc: KeyScope, n: uint32, rand: Prng)
    returns (ws: seq<World>, ops: seq<Op>, earlier: seq<nat>, later: seq<nat>)
    requires Lawful(c) && WorldOK(c, sec, w) && !w.m.locked && Unused(c, sec, w, sc, n) && Delivers(rand)
    requires RawName(n) !in w.db[sc].table.ids
    ensures IsRun(c, ws, ops) && |ops| == 4 && ws[0] == w && Overwrites(c, ws[1], ops[1], sc, n) && ops[2].DoReopen?
    ensures HandedAt(c, ws, ops, 0, sc, n, false, earlier) && HandedAt(c, ws, ops, 3, sc, n, false, later)
    ensures |earlier| > 0 && |later| > 0 && earlier[0] < |ws[1].m.heap| && later[0] < |ws[4].m.heap|
    ensures ws[1].m.heap[earlier[0]].path.index == ws[4].m.heap[later[0]].path.index
  {
    hide Lawful, WorldOK, MgrOK, NextAddresses, Overwrites, Delivers, Serve, AccountKey, DeriveKey, After, RawName,
      NextIndex;
    FirstRequest(c, sec, w, sc, n, rand);
    var w1 := AfterNextAddresses(c, w, sc, n, ONE, rand);
    var op0, op1, op2 := DoNextAddresses(sc, n, ONE, rand), DoNewAccount(sc, Raw(n, rand)), DoReopen(Zeros(SALT_SIZE));
    StepOK(c, sec, w, op0, w1);
    RequestKeeps(c, sec, w, sc, n, ONE, rand);
    RawSucceeds(c, sec, w1, sc, n, rand);
    var w2 := AfterNewAccount(c, w1, sc, Raw(n, rand));
    StepOK(c, sec, w1, op1, w2);
    OverwrittenRow(c, w1, op1, w2, sc, n);
    var w3 := w2.(m := Reopened(w2.m, Zeros(SALT_SIZE)));
    StepOK(c, sec, w2, op2, w3);
    OverwriteAndReopenRestart(c, w1, op1, w2, Zeros(SALT_SIZE), w3, sc, n, false);
    FirstRequest(c, sec, w3, sc, n, rand);
    var w4 := AfterNextAddresses(c, w3, sc, n, ONE, rand);
    StepOK(c, sec, w3, op0, w4);
    ws, ops := [w, w1, w2, w3, w4], [op0, op1, op2, op0];
    earlier, later := NextAddresses(c, w.m, w.db, sc, n, ONE, rand).2.value,
      NextAddresses(c, w3.m, w3.db, sc, n, ONE, rand).2.value;
    assert IsRun(c, ws, ops);
    assert AllOK(c, sec, ws);
    SameStartSameIndex(c, sec, ws, ops, 0, 3, sc, n, false, earlier, later);
  }
}
