/** When address indices stay in order, in terms of the operations of a run: as long as no
    account that is created anew is then loaded from its new row before a request on the
    branch has written the manager's own counter over it.
 */
module IndexOrder {
  import opened ByteCodec
  import opened Errors
  import opened Primitives
  import opened AccountRow
  import opened AccountTable
  import opened Keyring
  import opened KeyringInvariant
  import opened KeyringAddresses
  import opened KeyringRuns
  import opened AllocationRuns
  import opened IndexReuse
  import A = Allocation

  /** The account and branch whose indices are followed. */
  datatype Chain = Chain(sc: KeyScope, n: uint32, internal: bool)

  /** Step p is a successful request on the branch. */
  ghost predicate Hands(c: Crypto, ws: seq<World>, ops: seq<Op>, p: nat, b: Chain)
    requires IsRun(c, ws, ops)
  {
    exists refs :: HandedAt(c, ws, ops, p, b.sc, b.n, b.internal, refs)
  }

  predicate Stored(w: World, b: Chain) { b.sc in w.db && b.n in w.db[b.sc].table.rows }

  function Row(w: World, b: Chain): uint32
    requires Stored(w, b)
  {
    RowIndex(w.db[b.sc].table.rows[b.n], b.internal)
  }

  predicate InCacheOf(w: World, b: Chain) { Cached(w.m, b.sc, b.n) }

  function Next(w: World, b: Chain): uint32 { NextIndex(w, b.sc, b.n, b.internal) }

  ghost predicate Anew(c: Crypto, ws: seq<World>, ops: seq<Op>, k: nat, b: Chain)
    requires IsRun(c, ws, ops)
  {
    k < |ops| && Overwrites(c, ws[k], ops[k], b.sc, b.n)
  }

  ghost predicate Quiet(c: Crypto, ws: seq<World>, ops: seq<Op>, from: nat, to: nat, b: Chain)
    requires IsRun(c, ws, ops)
  {
    forall p :: from <= p < to ==> !Hands(c, ws, ops, p, b)
  }

  /** Step k creates the account anew, step m loads it from its row, and no request on the
      branch succeeded in between. */
  ghost predicate StaleLoad(c: Crypto, ws: seq<World>, ops: seq<Op>, k: nat, m: nat, b: Chain)
    requires IsRun(c, ws, ops)
  {
    && k < m && m + 1 < |ws| && Anew(c, ws, ops, k, b)
    && !InCacheOf(ws[m], b) && InCacheOf(ws[m + 1], b)
    && Quiet(c, ws, ops, k + 1, m, b)
  }

  ghost predicate NoStaleLoad(c: Crypto, ws: seq<World>, ops: seq<Op>, i: nat, j: nat, b: Chain)
    requires IsRun(c, ws, ops)
  {
    forall k, m :: i < k < m <= j ==> !StaleLoad(c, ws, ops, k, m, b)
  }

  // -------------------------------------------------------------------- single steps

  /** Only a successful request on the branch and a creation move its stored counter. */
  lemma StepRow(c: Crypto, sec: Secrets, ws: seq<World>, ops: seq<Op>, t: nat, b: Chain)
    requires Lawful(c) && IsRun(c, ws, ops) && AllOK(c, sec, ws) && t < |ops| && Stored(ws[t], b)
    requires !Hands(c, ws, ops, t, b) && !Anew(c, ws, ops, t, b)
    ensures Stored(ws[t + 1], b) && Row(ws[t + 1], b) == Row(ws[t], b)
  {
    hide Lawful, WorldOK, NextAddresses, Unlocks, LockOf, LoadAccount, DeriveAddress, CacheAddress, Structured,
      EvictAddress, PrivKey, AfterNewAccount, AfterNewScope, Overwrites, Loads, Advances, Hands;
    assert Step(c, ws[t], ops[t], ws[t + 1]);
    match ops[t]
    case DoNextAddresses(sc, n, q, rand) =>
      if sc in ws[t].m.scopes {
        var (m', db', r) := NextAddresses(c, ws[t].m, ws[t].db, sc, n, q, rand);
        if r.Ok? && sc == b.sc && n == b.n && q.internal == b.internal {
          RequestHands(c, ws, ops, t, b, r.value);
        } else {
          MovesOneRow(c, sec, ws[t], sc, n, q, rand, m', db', r, b);
        }
      }
    case DoNewAccount(sc, q) => NewAccountRow(c, ws[t], sc, q, b.sc, b.n);
    case DoNewScope(sc, schema, rand) => NewScopeRows(c, ws[t], sc, schema, rand, b.sc);
    case DoReopen(salt) =>
    case _ => StepLoads(c, sec, ws[t], ops[t], ws[t + 1]);
  }

  lemma RequestHands(c: Crypto, ws: seq<World>, ops: seq<Op>, t: nat, b: Chain, refs: seq<nat>)
    requires IsRun(c, ws, ops) && t < |ops| && ops[t].DoNextAddresses? && b.sc in ws[t].m.scopes
    requires ops[t].sc == b.sc && ops[t].account == b.n && ops[t].ask.internal == b.internal
    requires NextAddresses(c, ws[t].m, ws[t].db, b.sc, b.n, ops[t].ask, ops[t].rand).2 == Ok(refs)
    ensures Hands(c, ws, ops, t, b)
  {
    hide NextAddresses;
    assert Step(c, ws[t], ops[t], ws[t + 1]);
    assert HandedAt(c, ws, ops, t, b.sc, b.n, b.internal, refs);
  }

  lemma MovesOneRow(c: Crypto, sec: Secrets, w: World, sc: KeyScope, n: uint32, q: Ask, rand: Prng,
                    m': Mgr, db': Db, r: Outcome<seq<nat>>, b: Chain)
    requires Lawful(c) && WorldOK(c, sec, w) && sc in w.m.scopes && Stored(w, b)
    requires NextAddresses(c, w.m, w.db, sc, n, q, rand) == (m', db', r)
    requires !(r.Ok? && sc == b.sc && n == b.n && q.internal == b.internal)
    ensures b.sc in db' && b.n in db'[b.sc].table.rows
    ensures RowIndex(db'[b.sc].table.rows[b.n], b.internal) == Row(w, b)
  {
    hide Lawful, MgrOK, DbOK, TablesOK, NextAddresses, Loads, OpenKey, Advances;
    NextShape(c, sec, w.m, w.db, sc, n, q, rand, m', db', r);
    if db' != w.db || !Loads(w.m, m', w.db) {
      var m2, s :| Loads(w.m, m2, w.db) && Advances(m2, m', w.db, db', sc, n, q, s);
      OtherRows(m2, m', w.db, db', sc, n, q, s, b);
    }
  }

  lemma OtherRows(m: Mgr, m': Mgr, db: Db, db': Db, sc: KeyScope, n: uint32, q: Ask, s: seq<uint32>, b: Chain)
    requires Advances(m, m', db, db', sc, n, q, s) && b.sc in db && b.n in db[b.sc].table.rows
    requires !(sc == b.sc && n == b.n && q.internal == b.internal)
    ensures b.sc in db' && b.n in db'[b.sc].table.rows
    ensures RowIndex(db'[b.sc].table.rows[b.n], b.internal) == RowIndex(db[b.sc].table.rows[b.n], b.internal)
  {
    hide A.StoreAll, OnlyAccount;
    A.StoreAllMovesOneCounter(db[sc].table.rows[n], A.Branch(q), s);
  }

  /** A creation leaves the manager alone and starts the row over. */
  lemma AnewRow(c: Crypto, ws: seq<World>, ops: seq<Op>, k: nat, b: Chain)
    requires IsRun(c, ws, ops) && Anew(c, ws, ops, k, b)
    ensures ws[k + 1].m == ws[k].m && Stored(ws[k + 1], b) && Row(ws[k + 1], b) == 0
  {
    hide Overwrites;
    OverwrittenRow(c, ws[k], ops[k], ws[k + 1], b.sc, b.n);
  }

  /** After a successful request the account is cached and in step, past what was handed out. */
  lemma HandsNext(c: Crypto, sec: Secrets, ws: seq<World>, ops: seq<Op>, p: nat, b: Chain)
    requires Lawful(c) && IsRun(c, ws, ops) && AllOK(c, sec, ws) && Hands(c, ws, ops, p, b)
    ensures p < |ops| && InStep(ws[p + 1], b.sc, b.n, b.internal) && InCacheOf(ws[p + 1], b)
    ensures Next(ws[p + 1], b) > Next(ws[p], b)
  {
    hide Lawful, IsRun, WorldOK, HandedAt, AccountKey, A.Choose, NextIndex, InStep;
    var refs :| HandedAt(c, ws, ops, p, b.sc, b.n, b.internal, refs);
    var s, locked := HandedIndices(c, sec, ws, ops, p, b.sc, b.n, b.internal, refs);
    HandedAsks(c, ws, ops, p, b.sc, b.n, b.internal, refs);
    assert Next(ws[p], b) <= s[|s| - 1];
  }

  /** Somewhere before it is next cached the account is loaded, and until then no request on
      the branch can succeed. */
  lemma {:induction false} LoadedAgain(c: Crypto, sec: Secrets, ws: seq<World>, ops: seq<Op>, from: nat, j: nat,
                                       b: Chain) returns (m: nat)
    requires Lawful(c) && IsRun(c, ws, ops) && AllOK(c, sec, ws) && from <= j < |ops|
    requires !InCacheOf(ws[from], b) && InCacheOf(ws[j + 1], b)
    ensures from <= m <= j && !InCacheOf(ws[m], b) && InCacheOf(ws[m + 1], b) && Quiet(c, ws, ops, from, m, b)
    decreases j - from
  {
    hide Lawful, IsRun, WorldOK, Hands, Cached;
    RunSize(c, ws, ops);
    if InCacheOf(ws[from + 1], b) {
      m := from;
    } else {
      m := LoadedAgain(c, sec, ws, ops, from + 1, j, b);
      if Hands(c, ws, ops, from, b) { HandsNext(c, sec, ws, ops, from, b); }
    }
  }

  // ------------------------------------------------------- no stale load: in order

  /** The account was created anew and no request on the branch succeeded since. */
  ghost predicate Pending(c: Crypto, ws: seq<World>, ops: seq<Op>, p: nat, t: nat, b: Chain)
    requires IsRun(c, ws, ops)
  {
    exists k :: p < k < t && Anew(c, ws, ops, k, b) && Quiet(c, ws, ops, k + 1, t, b)
  }

  /** What holds at point t after a request at p: the row is in step, or it is a new one that
      the cache still outranks. */
  ghost predicate Holds(c: Crypto, ws: seq<World>, ops: seq<Op>, p: nat, t: nat, b: Chain)
    requires IsRun(c, ws, ops)
  {
    && t < |ws| && Stored(ws[t], b)
    && (InStep(ws[t], b.sc, b.n, b.internal) || (InCacheOf(ws[t], b) && Pending(c, ws, ops, p, t, b)))
  }

  lemma StaleContradicts(c: Crypto, sec: Secrets, ws: seq<World>, ops: seq<Op>, p: nat, k: nat, from: nat, j: nat,
                         b: Chain)
    requires Lawful(c) && IsRun(c, ws, ops) && AllOK(c, sec, ws) && j < |ops| && p < k < from <= j
    requires Anew(c, ws, ops, k, b) && Quiet(c, ws, ops, k + 1, from, b)
    requires !InCacheOf(ws[from], b) && InCacheOf(ws[j + 1], b)
    ensures !NoStaleLoad(c, ws, ops, p, j, b)
  {
    hide Lawful, IsRun, WorldOK, Hands, Cached, Anew;
    RunSize(c, ws, ops);
    var m := LoadedAgain(c, sec, ws, ops, from, j, b);
    assert StaleLoad(c, ws, ops, k, m, b);
  }

  lemma StepHolds(c: Crypto, sec: Secrets, ws: seq<World>, ops: seq<Op>, p: nat, t: nat, j: nat, b: Chain)
    requires Lawful(c) && IsRun(c, ws, ops) && AllOK(c, sec, ws) && p < t < j < |ops|
    requires Holds(c, ws, ops, p, t, b) && InCacheOf(ws[j + 1], b) && NoStaleLoad(c, ws, ops, p, j, b)
    ensures Holds(c, ws, ops, p, t + 1, b) && Next(ws[t + 1], b) >= Next(ws[t], b)
  {
    hide Lawful, WorldOK, Hands, Step, Overwrites, NoStaleLoad, Pending;
    assert Step(c, ws[t], ops[t], ws[t + 1]);
    if Anew(c, ws, ops, t, b) {
      AnewRow(c, ws, ops, t, b);
      if InCacheOf(ws[t], b) {
        PendingNow(c, ws, ops, p, t, b);
      } else {
        StaleContradicts(c, sec, ws, ops, p, t, t + 1, j, b);
      }
    } else if Hands(c, ws, ops, t, b) {
      HandsNext(c, sec, ws, ops, t, b);
    } else if InStep(ws[t], b.sc, b.n, b.internal) {
      StepInStep(c, sec, ws[t], ops[t], ws[t + 1], b.sc, b.n, b.internal);
    } else {
      StepRow(c, sec, ws, ops, t, b);
      PendingStays(c, ws, ops, p, t, b);
      if !InCacheOf(ws[t + 1], b) {
        var k := PendingSince(c, ws, ops, p, t + 1, b);
        StaleContradicts(c, sec, ws, ops, p, k, t + 1, j, b);
      } else {
        CachedGrows(c, sec, ws, ops, t, b);
      }
    }
  }

  lemma PendingNow(c: Crypto, ws: seq<World>, ops: seq<Op>, p: nat, t: nat, b: Chain)
    requires IsRun(c, ws, ops) && p < t && Anew(c, ws, ops, t, b)
    ensures Pending(c, ws, ops, p, t + 1, b)
  {
    hide IsRun, Anew, Hands;
  }

  lemma PendingStays(c: Crypto, ws: seq<World>, ops: seq<Op>, p: nat, t: nat, b: Chain)
    requires IsRun(c, ws, ops) && Pending(c, ws, ops, p, t, b) && !Hands(c, ws, ops, t, b)
    ensures Pending(c, ws, ops, p, t + 1, b)
  {
    hide IsRun, Anew, Hands;
    var k :| p < k < t && Anew(c, ws, ops, k, b) && Quiet(c, ws, ops, k + 1, t, b);
    assert Quiet(c, ws, ops, k + 1, t + 1, b);
  }

  lemma PendingSince(c: Crypto, ws: seq<World>, ops: seq<Op>, p: nat, t: nat, b: Chain) returns (k: nat)
    requires IsRun(c, ws, ops) && Pending(c, ws, ops, p, t, b)
    ensures p < k < t && Anew(c, ws, ops, k, b) && Quiet(c, ws, ops, k + 1, t, b)
  {
    hide IsRun, Anew, Quiet;
    k :| p < k < t && Anew(c, ws, ops, k, b) && Quiet(c, ws, ops, k + 1, t, b);
  }

  /** An account that is cached before and after a step kept its counter or moved it on. */
  lemma CachedGrows(c: Crypto, sec: Secrets, ws: seq<World>, ops: seq<Op>, t: nat, b: Chain)
    requires Lawful(c) && IsRun(c, ws, ops) && AllOK(c, sec, ws) && t < |ops| && InCacheOf(ws[t], b)
    requires InCacheOf(ws[t + 1], b)
    ensures Next(ws[t + 1], b) >= Next(ws[t], b)
  {
    hide Lawful, WorldOK, CountersGrow;
    assert Step(c, ws[t], ops[t], ws[t + 1]);
    if !ops[t].DoReopen? {
      hide Step;
      StepGrows(c, sec, ws[t], ops[t], ws[t + 1]);
      GrowsAt(ws[t].m, ws[t + 1].m, b.sc, b.n);
    }
  }

  lemma GrowsAt(m: Mgr, m': Mgr, sc: KeyScope, n: uint32)
    requires CountersGrow(m, m')
    ensures CounterGrows(m, m', sc, n)
  {
  }

  lemma {:induction false} HoldsFrom(c: Crypto, sec: Secrets, ws: seq<World>, ops: seq<Op>, p: nat, t: nat, j: nat,
                                     b: Chain)
    requires Lawful(c) && IsRun(c, ws, ops) && AllOK(c, sec, ws) && p < t <= j < |ops|
    requires Hands(c, ws, ops, p, b) && Hands(c, ws, ops, j, b) && NoStaleLoad(c, ws, ops, p, j, b)
    ensures Holds(c, ws, ops, p, t, b) && Next(ws[t], b) >= Next(ws[p + 1], b)
    decreases t
  {
    hide Lawful, IsRun, WorldOK, Hands, NoStaleLoad, NextIndex;
    RunSize(c, ws, ops);
    if t == p + 1 {
      HandsNext(c, sec, ws, ops, p, b);
    } else {
      HoldsFrom(c, sec, ws, ops, p, t - 1, j, b);
      HandsNext(c, sec, ws, ops, j, b);
      StepHolds(c, sec, ws, ops, p, t - 1, j, b);
    }
  }

  // --------------------------------------------------- a stale load: out of order

  /** From the creation to the load the stored counter is zero ... */
  lemma {:induction false} RowIsZero(c: Crypto, sec: Secrets, ws: seq<World>, ops: seq<Op>, k: nat, t: nat, b: Chain)
    requires Lawful(c) && IsRun(c, ws, ops) && AllOK(c, sec, ws) && k < t < |ws|
    requires Anew(c, ws, ops, k, b) && Quiet(c, ws, ops, k + 1, t, b)
    ensures Stored(ws[t], b) && Row(ws[t], b) == 0
    decreases t
  {
    hide Lawful, IsRun, WorldOK, Hands, Anew;
    if t == k + 1 {
      AnewRow(c, ws, ops, k, b);
    } else {
      RowIsZero(c, sec, ws, ops, k, t - 1, b);
      RunSize(c, ws, ops);
      if Anew(c, ws, ops, t - 1, b) {
        AnewRow(c, ws, ops, t - 1, b);
      } else {
        StepRow(c, sec, ws, ops, t - 1, b);
      }
    }
  }

  lemma RunSize(c: Crypto, ws: seq<World>, ops: seq<Op>)
    requires IsRun(c, ws, ops)
    ensures |ws| == |ops| + 1
  {
    hide Step;
  }

  /** ... and from the load to the next request both counters are. */
  lemma {:induction false} BothAreZero(c: Crypto, sec: Secrets, ws: seq<World>, ops: seq<Op>, m: nat, t: nat, b: Chain)
    requires Lawful(c) && IsRun(c, ws, ops) && AllOK(c, sec, ws) && m <= t < |ws|
    requires InStep(ws[m], b.sc, b.n, b.internal) && Row(ws[m], b) == 0 && Quiet(c, ws, ops, m, t, b)
    ensures InStep(ws[t], b.sc, b.n, b.internal) && Row(ws[t], b) == 0
    decreases t
  {
    hide Lawful, Step, WorldOK, Hands, Overwrites;
    if m < t {
      BothAreZero(c, sec, ws, ops, m, t - 1, b);
      if Anew(c, ws, ops, t - 1, b) {
        AnewRow(c, ws, ops, t - 1, b);
      } else {
        StepRow(c, sec, ws, ops, t - 1, b);
        StepInStep(c, sec, ws[t - 1], ops[t - 1], ws[t], b.sc, b.n, b.internal);
      }
    }
  }

  lemma {:induction false} NextRequest(c: Crypto, ws: seq<World>, ops: seq<Op>, m: nat, j: nat,
                                       b: Chain) returns (q: nat)
    requires IsRun(c, ws, ops) && m <= j && Hands(c, ws, ops, j, b)
    ensures m <= q <= j && Hands(c, ws, ops, q, b) && Quiet(c, ws, ops, m, q, b)
    decreases j - m
  {
    hide IsRun, Hands;
    q := m;
    if !Hands(c, ws, ops, m, b) {
      q := NextRequest(c, ws, ops, m + 1, j, b);
    }
  }

  /** The next request after a stale load starts at index 0. */
  lemma StaleRestarts(c: Crypto, sec: Secrets, ws: seq<World>, ops: seq<Op>, k: nat, m: nat, j: nat,
                      b: Chain) returns (q: nat)
    requires Lawful(c) && IsRun(c, ws, ops) && AllOK(c, sec, ws) && m <= j < |ops|
    requires StaleLoad(c, ws, ops, k, m, b) && Hands(c, ws, ops, j, b)
    ensures m <= q <= j && Hands(c, ws, ops, q, b) && Next(ws[q], b) == 0
  {
    hide Lawful, Step, WorldOK, Hands, Overwrites;
    RowIsZero(c, sec, ws, ops, k, m, b);
    q := NextRequest(c, ws, ops, m, j, b);
    BothAreZero(c, sec, ws, ops, m, q, b);
  }

  // ------------------------------------------------------------------- the condition

  /** Any two successful requests on the branch from step i to step j are in order. */
  ghost predicate AllInOrder(c: Crypto, ws: seq<World>, ops: seq<Op>, i: nat, j: nat, b: Chain)
    requires IsRun(c, ws, ops) && j < |ops|
  {
    forall p: nat, q: nat, earlier, later ::
      i <= p < q <= j && HandedAt(c, ws, ops, p, b.sc, b.n, b.internal, earlier)
        && HandedAt(c, ws, ops, q, b.sc, b.n, b.internal, later)
      ==> InOrder(ws, p, q, earlier, later)
  }

  /** Over every stretch of a run between two successful requests on one branch: all indices
      handed out in it ascend if and only if the account is never created anew and then
      loaded from its row before a request on that branch rewrites it. */
  lemma OrderOverOperations(c: Crypto, sec: Secrets, ws: seq<World>, ops: seq<Op>, i: nat, j: nat, b: Chain)
    requires Lawful(c) && IsRun(c, ws, ops) && WorldOK(c, sec, ws[0]) && TrustsAll(c, sec, ops) && i < j < |ops|
    requires Hands(c, ws, ops, i, b) && Hands(c, ws, ops, j, b)
    ensures AllInOrder(c, ws, ops, i, j, b) <==> NoStaleLoad(c, ws, ops, i, j, b)
  {
    hide Lawful, IsRun, WorldOK, TrustsAll, HandedAt, InOrder, StaleLoad, NextIndex, Holds;
    RunOK(c, sec, ws, ops);
    assert AllOK(c, sec, ws);
    RunSize(c, ws, ops);
    if NoStaleLoad(c, ws, ops, i, j, b) {
      forall p: nat, q: nat, earlier, later |
        i <= p < q <= j && HandedAt(c, ws, ops, p, b.sc, b.n, b.internal, earlier)
          && HandedAt(c, ws, ops, q, b.sc, b.n, b.internal, later)
        ensures InOrder(ws, p, q, earlier, later)
      {
        HoldsFrom(c, sec, ws, ops, p, q, q, b);
        OrderExact(c, sec, ws, ops, p, q, b.sc, b.n, b.internal, earlier, later);
      }
    } else {
      var k, m :| i < k < m <= j && StaleLoad(c, ws, ops, k, m, b);
      var q := StaleRestarts(c, sec, ws, ops, k, m, j, b);
      HandsNext(c, sec, ws, ops, i, b);
      var earlier :| HandedAt(c, ws, ops, i, b.sc, b.n, b.internal, earlier);
      var later :| HandedAt(c, ws, ops, q, b.sc, b.n, b.internal, later);
      OrderExact(c, sec, ws, ops, i, q, b.sc, b.n, b.internal, earlier, later);
      assert !InOrder(ws, i, q, earlier, later);
    }
  }
}
