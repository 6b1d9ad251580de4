/** Addresses of a sound manager: caching and evicting them, handing out their private
    keys, and nextAddresses, which builds a batch at the next free indices, stores it,
    reads it back and, at commit, caches and (while locked) queues it.
 */
module KeyringAddresses {
  import opened ByteCodec
  import opened Errors
  import opened Primitives
  import opened Snacl
  import opened AccountRow
  import opened AccountTable
  import opened Keyring
  import opened KeyringInvariant
  import opened KeyringLocking
  import A = Allocation

  // -------------------------------------------------------------- single addresses

  lemma CacheOK(c: Crypto, sec: Secrets, m: Mgr, db: Db, sc: KeyScope, path: Path, rand: Prng)
    requires Lawful(c) && MgrOK(c, sec, m) && DbOK(c, sec, db) && sc in m.scopes
    ensures MgrOK(c, sec, CacheAddress(c, m, db, sc, path, rand).0)
    ensures CacheAddress(c, m, db, sc, path, rand).0.scopes.Keys == m.scopes.Keys
  {
    hide Lawful, MgrOK, DbOK, DeriveAddress, AddrOK;
    DeriveAddressOK(c, sec, m, db, sc, path, rand);
    var (m1, ref) := DeriveAddress(c, m, db, sc, path, rand);
    if ref.Ok? && ref.value < |m1.heap| {
      DerivedAddress(c, sec, m, db, sc, path, rand, ref.value);
      AddAddrOK(c, sec, m1, sc, ref.value);
    }
  }

  /** One more cache entry, under its own script address. */
  lemma AddAddrOK(c: Crypto, sec: Secrets, m: Mgr, sc: KeyScope, ref: nat)
    requires MgrOK(c, sec, m) && sc in m.scopes && ref < |m.heap| && m.heap[ref].scope == sc
    requires m.locked ==> m.heap[ref].privCT == []
    ensures var id := c.script(m.heap[ref].pubKey, m.heap[ref].kind);
            MgrOK(c, sec, m.(scopes := m.scopes[sc := m.scopes[sc].(addrs := m.scopes[sc].addrs[id := ref])]))
  {
    hide MgrOK;
    var id := c.script(m.heap[ref].pubKey, m.heap[ref].kind);
    AddrsInHeap(c, sec, m, sc);
    AddrsOK(c, sec, m, sc, m.scopes[sc].addrs[id := ref]);
  }

  lemma AddrsInHeap(c: Crypto, sec: Secrets, m: Mgr, sc: KeyScope)
    requires MgrOK(c, sec, m) && sc in m.scopes
    ensures forall id :: id in m.scopes[sc].addrs ==> CanCache(c, m, sc, id, m.scopes[sc].addrs[id])
  {
    hide Base, AccountsOK, HeapOK, TypesOK, Structured, AccountsOpen;
    forall id | id in m.scopes[sc].addrs ensures CanCache(c, m, sc, id, m.scopes[sc].addrs[id]) {
      assert CachedAs(c, m, sc, id, m.scopes[sc].addrs[id]);
    }
  }

  /** What a cache entry needs: its own script address and, while locked, no clear key. */
  ghost predicate CanCache(c: Crypto, m: Mgr, sc: KeyScope, id: Bytes, ref: nat) {
    CachedAs(c, m, sc, id, ref) && (m.locked ==> m.heap[ref].privCT == [])
  }

  lemma AddrsOK(c: Crypto, sec: Secrets, m: Mgr, sc: KeyScope, addrs: map<Bytes, nat>)
    requires MgrOK(c, sec, m) && sc in m.scopes && forall id :: id in addrs ==> CanCache(c, m, sc, id, addrs[id])
    ensures MgrOK(c, sec, m.(scopes := m.scopes[sc := m.scopes[sc].(addrs := addrs)]))
  {
    hide AddrOK, AccountOK, OpenKey, Base, Structured, ShapesOK, Mode;
    var w := m.(scopes := m.scopes[sc := m.scopes[sc].(addrs := addrs)]);
    SameBase(c, sec, m, w);
    AddrsStructured(m, sc, addrs);
    AddrsShapes(c, sec, m, sc, addrs);
    forall i | 0 <= i < |w.heap| ensures w.heap[i].privEnc != [] || Queued(w, i) {
      HeapAt(c, sec, m, i);
      if Queued(m, i) { KeepsQueued(m, w, i); }
    }
  }

  lemma AddrsShapes(c: Crypto, sec: Secrets, m: Mgr, sc: KeyScope, addrs: map<Bytes, nat>)
    requires ShapesOK(c, m) && Mode(c, sec, m) && sc in m.scopes
    requires forall id :: id in addrs ==> CanCache(c, m, sc, id, addrs[id])
    ensures var w := m.(scopes := m.scopes[sc := m.scopes[sc].(addrs := addrs)]); ShapesOK(c, w) && Mode(c, sec, w)
  {
    hide OpenKey;
    var w := m.(scopes := m.scopes[sc := m.scopes[sc].(addrs := addrs)]);
    forall i | 0 <= i < |w.heap| ensures TypeOK(w, w.heap[i]) { assert TypeOK(m, m.heap[i]); }
    forall t, id | t in w.scopes && id in w.scopes[t].addrs ensures CachedAs(c, w, t, id, w.scopes[t].addrs[id]) {
      if t == sc {
        assert CanCache(c, m, sc, id, addrs[id]);
      } else {
        assert CachedAs(c, m, t, id, m.scopes[t].addrs[id]);
      }
    }
  }

  lemma AddrsStructured(m: Mgr, sc: KeyScope, addrs: map<Bytes, nat>)
    requires Structured(m) && sc in m.scopes && forall id :: id in addrs ==> addrs[id] < |m.heap|
    ensures Structured(m.(scopes := m.scopes[sc := m.scopes[sc].(addrs := addrs)]))
  {
    var w := m.(scopes := m.scopes[sc := m.scopes[sc].(addrs := addrs)]);
    forall t, i | t in w.scopes && 0 <= i < |w.scopes[t].queue| ensures EntryCached(w, t, w.scopes[t].queue[i]) {
      assert EntryCached(m, t, m.scopes[t].queue[i]);
    }
  }

  lemma EvictOK(c: Crypto, sec: Secrets, m: Mgr, sc: KeyScope, id: Bytes)
    requires MgrOK(c, sec, m) && sc in m.scopes
    ensures MgrOK(c, sec, EvictAddress(m, sc, id))
  {
    hide MgrOK, CanCache;
    AddrsInHeap(c, sec, m, sc);
    AddrsOK(c, sec, m, sc, m.scopes[sc].addrs - {id});
  }

  /** MarkUsed drops exactly that entry from exactly that scope's cache. */
  lemma EvictDropsOne(m: Mgr, sc: KeyScope, id: Bytes)
    requires sc in m.scopes
    ensures var w := EvictAddress(m, sc, id);
            && w == m.(scopes := w.scopes) && w.scopes.Keys == m.scopes.Keys
            && (forall t :: t in m.scopes && t != sc ==> w.scopes[t] == m.scopes[t])
            && w.scopes[sc] == m.scopes[sc].(addrs := w.scopes[sc].addrs)
            && (forall i :: i in w.scopes[sc].addrs <==> i in m.scopes[sc].addrs && i != id)
            && (forall i :: i in w.scopes[sc].addrs ==> w.scopes[sc].addrs[i] == m.scopes[sc].addrs[i])
  {
  }

  lemma PrivKeyOK(c: Crypto, sec: Secrets, m: Mgr, ref: nat)
    requires MgrOK(c, sec, m) && ref < |m.heap|
    ensures MgrOK(c, sec, PrivKey(c, m, ref).0)
  {
    hide MgrOK, Decrypt;
    if !m.watchingOnly && !m.locked {
      assert HeapOK(c, sec, m) && m.cryptoPriv == sec.priv by { CoreOf(c, sec, m); NetOf(c, sec, m); }
      HeapAt(c, sec, m, ref);
      assert AddrOK(c, sec, m.heap[ref]);
      var a := UnlockAddress(c, m.cryptoPriv, m.heap[ref]).0;
      assert SameIdentity(m.heap[ref], a) && a.privEnc == m.heap[ref].privEnc;
      SetAddressOK(c, sec, m, ref, a);
    }
  }

  lemma UnlockedMode(c: Crypto, sec: Secrets, m: Mgr, w: Mgr)
    requires Mode(c, sec, m) && !m.locked && w == m.(heap := w.heap)
    ensures Mode(c, sec, w)
  {
    hide AccountsOpen;
  }

  lemma SetAddressOK(c: Crypto, sec: Secrets, m: Mgr, ref: nat, a: Address)
    requires MgrOK(c, sec, m) && !m.locked && ref < |m.heap| && AddrOK(c, sec, a)
    requires SameIdentity(m.heap[ref], a) && a.privEnc == m.heap[ref].privEnc
    ensures MgrOK(c, sec, m.(heap := m.heap[ref := a]))
  {
    hide AddrOK, AccountOK, OpenKey, Base, ShapesOK, Mode;
    var w := m.(heap := m.heap[ref := a]);
    SameBase(c, sec, m, w);
    UnlockedMode(c, sec, m, w);
    SameShapes(c, m, w);
    forall t, i | t in w.scopes && 0 <= i < |w.scopes[t].queue| ensures EntryCached(w, t, w.scopes[t].queue[i]) {
      assert EntryCached(m, t, m.scopes[t].queue[i]);
    }
    forall i | 0 <= i < |w.heap| ensures AddrOK(c, sec, w.heap[i]) && (w.heap[i].privEnc != [] || Queued(w, i)) {
      HeapAt(c, sec, m, i);
      if Queued(m, i) { KeepsQueued(m, w, i); }
    }
  }

  // ---------------------------------------------------------------- nextAddresses

  /** The random source after the reads of k private addresses. */
  function Later(rand: Prng, k: nat): Prng { (j: nat) => rand(2 * k + j) }

  /** The counter of the asked branch in the cached account and in the stored row. */
  function CachedCounter(a: Account, q: A.Ask): uint32 { if q.internal then a.nextInternal else a.nextExternal }
  function RowCounter(row: AcctRow, q: A.Ask): uint32 { if q.internal then row.nextInternal else row.nextExternal }

  function Indices(c: Crypto, m: Mgr, a: Account, q: A.Ask): Outcome<seq<uint32>> {
    match WorkingKey(m, a)
    case None => Fault
    case Some(k) => A.Choose(c, k, CachedCounter(a, q), q)
  }

  /** The managed addresses of a batch. */
  function BuildAll(c: Crypto, m: Mgr, sc: KeyScope, a: Account, n: uint32, branch: uint32, s: seq<uint32>,
                    rand: Prng, i: nat): Outcome<seq<Address>>
    requires sc in m.scopes
    decreases |s|
  {
    if s == [] then Ok([]) else
    var key :- DeriveKey(c, WorkingKey(m, a), branch, s[0]);
    var x :- NewAddress(c, m, sc, AddrType(m.scopes[sc].schema, branch), key,
                        Path(n, branch, s[0]), a.keyPriv, rand, i);
    var rest :- BuildAll(c, m, sc, a, n, branch, s[1..], rand, i + 1);
    Ok([x] + rest)
  }

  /** Address().String(): the script address and the type determine it. */
  function Printed(c: Crypto, a: Address): (Bytes, byte) { (c.script(a.pubKey, a.kind), a.kind) }

  /** A stored address is read back and cached; one that prints differently is dropped from
      the cache again and reported. */
  function ReadBack(c: Crypto, m: Mgr, db: Db, sc: KeyScope, a: Address, rand: Prng): (r: (Mgr, Outcome<()>))
    requires sc in m.scopes
    ensures r.0.scopes.Keys == m.scopes.Keys
  {
    var (m1, ref) := CacheAddress(c, m, db, sc, a.path, rand);
    match ref
    case Err(e) => (m1, Err(e))
    case Fault => (m1, Fault)
    case Ok(j) =>
      if j < |m1.heap| && Printed(c, m1.heap[j]) != Printed(c, a) then
        (EvictAddress(m1, sc, c.script(m1.heap[j].pubKey, m1.heap[j].kind)), Err(ErrAddrMismatch))
      else (m1, Ok(()))
  }

  function CacheAll(c: Crypto, m: Mgr, db: Db, sc: KeyScope, made: seq<Address>, rand: Prng,
                    i: nat): (r: (Mgr, Outcome<()>))
    requires sc in m.scopes
    ensures r.0.scopes.Keys == m.scopes.Keys
    decreases |made|
  {
    if made == [] then (m, Ok(())) else
    var (m1, back) := ReadBack(c, m, db, sc, made[0], Later(rand, i));
    if !back.Ok? then (m1, back) else CacheAll(c, m1, db, sc, made[1..], rand, i + 2)
  }

  /** The commit callback's work for one address. */
  function CommitOne(c: Crypto, m: Mgr, sc: KeyScope, a: Address): (r: Mgr)
    requires sc in m.scopes
    ensures r.scopes.Keys == m.scopes.Keys
  {
    var s := m.scopes[sc];
    var queue := if m.locked && !m.watchingOnly then s.queue + [Entry(|m.heap|, a.path.branch, a.path.index)]
                 else s.queue;
    var grown := m.(heap := m.heap + [a], scopes := m.scopes[sc := s.(queue := queue)]);
    grown.(scopes := grown.scopes[sc := grown.scopes[sc].(addrs := s.addrs[c.script(a.pubKey, a.kind) := |m.heap|])])
  }

  function CommitAll(c: Crypto, m: Mgr, sc: KeyScope, made: seq<Address>): (r: Mgr)
    requires sc in m.scopes
    ensures r.scopes.Keys == m.scopes.Keys
    decreases |made|
  {
    if made == [] then m else CommitAll(c, CommitOne(c, m, sc, made[0]), sc, made[1..])
  }

  function Moved(a: Account, q: A.Ask, next: uint32, last: nat): Account {
    if q.internal then a.(nextInternal := next, lastInternal := last) else a.(nextExternal := next)
  }

  /** putChainedAddress's effect on the account rows, once for each index. */
  function MoveCounter(d: ScopeDb, n: uint32, branch: uint32, s: seq<uint32>): ScopeDb
    requires n in d.table.rows
  {
    d.(table := d.table.(rows := d.table.rows[n := A.StoreAll(d.table.rows[n], branch, s)]))
  }

  function MoveRow(db: Db, sc: KeyScope, n: uint32, branch: uint32, s: seq<uint32>): Db
    requires sc in db && n in db[sc].table.rows
  {
    db[sc := MoveCounter(db[sc], n, branch, s)]
  }

  /** nextAddresses: the manager, the committed (or rolled back) database and the new
      addresses.  What was read into the caches before a failure stays there. */
  function NextAddresses(c: Crypto, m: Mgr, db: Db, sc: KeyScope, n: uint32, q: A.Ask, rand: Prng)
    : (Mgr, Db, Outcome<seq<nat>>)
    requires sc in m.scopes
  {
    var (m1, loaded) := LoadAccount(c, m, db, sc, n, rand);
    match loaded
    case Err(e) => (m1, db, Err(e))
    case Fault => (m1, db, Fault)
    case Ok(_) =>
      var a := m1.scopes[sc].accounts[n];
      match Indices(c, m1, a, q)
      case Err(e) => (m1, db, Err(e))
      case Fault => (m1, db, Fault)
      case Ok(s) =>
        match BuildAll(c, m1, sc, a, n, A.Branch(q), s, rand, 1)
        case Err(e) => (m1, db, Err(e))
        case Fault => (m1, db, Fault)
        case Ok(made) => StoreBatch(c, m1, db, sc, n, q, s, made, rand)
  }

  /** The stores, the reads back and the commit.  An empty batch faults in the callback, an
      address type without an address when its script address is asked for. */
  function StoreBatch(c: Crypto, m: Mgr, db: Db, sc: KeyScope, n: uint32, q: A.Ask, s: seq<uint32>,
                      made: seq<Address>, rand: Prng): (Mgr, Db, Outcome<seq<nat>>)
    requires sc in m.scopes
  {
    if s == [] || !KeyType(AddrType(m.scopes[sc].schema, A.Branch(q))) then (m, db, Fault)
    else if sc !in db || n !in db[sc].table.rows then (m, db, Err(ErrDatabase))
    else
      var (m2, back) := CacheAll(c, m, db, sc, made, rand, 1 + |made|);
      match back
      case Err(e) => (m2, db, Err(e))
      case Fault => (m2, db, Fault)
      case Ok(_) =>
        if n !in m2.scopes[sc].accounts then (m2, db, Fault) else
        (CommitBatch(c, m2, sc, n, q, (s[|s| - 1] + 1) % W32, made), MoveRow(db, sc, n, A.Branch(q), s),
         Ok(Refs(m2, made)))
  }

  /** The commit callback: cache and queue the batch, move the cached counter. */
  function CommitBatch(c: Crypto, m: Mgr, sc: KeyScope, n: uint32, q: A.Ask, next: uint32, made: seq<Address>): (r: Mgr)
    requires sc in m.scopes && n in m.scopes[sc].accounts
    ensures r.scopes.Keys == m.scopes.Keys
  {
    var last := if made == [] then 0 else |m.heap| + (|made| - 1);
    CommitAll(c, WithAccount(m, sc, n, Moved(m.scopes[sc].accounts[n], q, next, last)), sc, made)
  }

  function Refs(m: Mgr, made: seq<Address>): seq<nat> { seq(|made|, i => |m.heap| + i) }

  // -------------------------------------------------------------- it keeps the invariant

  /** A batch at these indices, as the callback will commit it. */
  ghost predicate BatchOK(c: Crypto, sec: Secrets, m: Mgr, sc: KeyScope, n: uint32, branch: uint32, s: seq<uint32>,
                          made: seq<Address>) {
    && |made| == |s|
    && forall k :: 0 <= k < |s| ==>
         && made[k].scope == sc && made[k].path == Path(n, branch, s[k]) && AddrOK(c, sec, made[k])
         && TypeOK(m, made[k])
         && (made[k].privEnc != [] <==> !m.locked)
  }

  lemma {:induction false} BuildAllOK(c: Crypto, sec: Secrets, m: Mgr, sc: KeyScope, n: uint32, branch: uint32,
                                      s: seq<uint32>, rand: Prng, i: nat)
    requires Lawful(c) && MgrOK(c, sec, m) && sc in m.scopes && n in m.scopes[sc].accounts
    requires BuildAll(c, m, sc, m.scopes[sc].accounts[n], n, branch, s, rand, i).Ok?
    ensures BatchOK(c, sec, m, sc, n, branch, s,
                    BuildAll(c, m, sc, m.scopes[sc].accounts[n], n, branch, s, rand, i).value)
    decreases |s|
  {
    hide Lawful, MgrOK, NewAddress, DeriveKey, AddrOK, AccountOK, OpenKey;
    if s != [] {
      var a, path := m.scopes[sc].accounts[n], Path(n, branch, s[0]);
      BuildAllOK(c, sec, m, sc, n, branch, s[1..], rand, i + 1);
      CachedAccount(c, sec, m, sc, n);
      WorkingKeyOf(c, sec, sc, path, m, a);
      NetOf(c, sec, m);
      var key := DeriveKey(c, WorkingKey(m, a), branch, s[0]).value;
      NewAddressOK(c, sec, m, sc, AddrType(m.scopes[sc].schema, branch), key, path, a.keyPriv, rand, i);
    }
  }

  lemma CacheKeeps(c: Crypto, m: Mgr, db: Db, sc: KeyScope, path: Path, rand: Prng)
    requires sc in m.scopes && path.account in m.scopes[sc].accounts
    ensures var m1 := CacheAddress(c, m, db, sc, path, rand).0;
            m1.locked == m.locked && m1.net == m.net && m1.scopes[sc].accounts == m.scopes[sc].accounts
  {
    hide DeriveKey, NewAddress;
  }

  lemma ReadBackOK(c: Crypto, sec: Secrets, m: Mgr, db: Db, sc: KeyScope, a: Address, rand: Prng)
    requires Lawful(c) && MgrOK(c, sec, m) && DbOK(c, sec, db) && sc in m.scopes
    requires a.path.account in m.scopes[sc].accounts
    ensures var m1 := ReadBack(c, m, db, sc, a, rand).0;
            MgrOK(c, sec, m1) && m1.locked == m.locked && m1.net == m.net
            && m1.scopes[sc].accounts == m.scopes[sc].accounts && m1.scopes[sc].schema == m.scopes[sc].schema
  {
    hide Lawful, MgrOK, DbOK, CacheAddress, Printed;
    CacheOK(c, sec, m, db, sc, a.path, rand);
    CacheKeeps(c, m, db, sc, a.path, rand);
    var (m1, ref) := CacheAddress(c, m, db, sc, a.path, rand);
    if ref.Ok? && ref.value < |m1.heap| {
      EvictOK(c, sec, m1, sc, c.script(m1.heap[ref.value].pubKey, m1.heap[ref.value].kind));
    }
  }

  lemma {:induction false} CacheAllOK(c: Crypto, sec: Secrets, m: Mgr, db: Db, sc: KeyScope, n: uint32,
                                      made: seq<Address>, rand: Prng, i: nat)
    requires Lawful(c) && MgrOK(c, sec, m) && DbOK(c, sec, db) && sc in m.scopes && n in m.scopes[sc].accounts
    requires forall k :: 0 <= k < |made| ==> made[k].path.account == n
    ensures var m2 := CacheAll(c, m, db, sc, made, rand, i).0;
            MgrOK(c, sec, m2) && m2.locked == m.locked && m2.scopes[sc].accounts == m.scopes[sc].accounts
            && m2.scopes[sc].schema == m.scopes[sc].schema
    decreases |made|
  {
    hide Lawful, MgrOK, DbOK, ReadBack;
    if made != [] {
      ReadBackOK(c, sec, m, db, sc, made[0], Later(rand, i));
      if ReadBack(c, m, db, sc, made[0], Later(rand, i)).1.Ok? {
        CacheAllOK(c, sec, ReadBack(c, m, db, sc, made[0], Later(rand, i)).0, db, sc, n, made[1..], rand, i + 2);
      }
    }
  }

  lemma BatchPaths(c: Crypto, sec: Secrets, m: Mgr, sc: KeyScope, n: uint32, branch: uint32, s: seq<uint32>,
                   made: seq<Address>)
    requires BatchOK(c, sec, m, sc, n, branch, s, made)
    ensures |made| == |s| && forall k :: 0 <= k < |made| ==> made[k].path == Path(n, branch, s[k])
  {
    hide AddrOK;
  }

  lemma CommitOneOK(c: Crypto, sec: Secrets, m: Mgr, sc: KeyScope, a: Address)
    requires MgrOK(c, sec, m) && sc in m.scopes && a.scope == sc && a.path.account in m.scopes[sc].accounts
    requires AddrOK(c, sec, a) && TypeOK(m, a) && (a.privEnc != [] <==> !m.locked)
    ensures var m' := CommitOne(c, m, sc, a);
            && MgrOK(c, sec, m') && m'.locked == m.locked && m'.scopes[sc].accounts == m.scopes[sc].accounts
            && m'.scopes[sc].schema == m.scopes[sc].schema && m'.heap == m.heap + [a]
            && m'.scopes[sc].addrs.Keys == m.scopes[sc].addrs.Keys + {c.script(a.pubKey, a.kind)}
  {
    hide MgrOK, AddressKey;
    NetOf(c, sec, m);
    var s := m.scopes[sc];
    var e := Entry(|m.heap|, a.path.branch, a.path.index);
    GrowHeap(c, sec, m, sc, !m.locked, a, e);
    var queue := if m.locked then s.queue + [e] else s.queue;
    var grown := m.(heap := m.heap + [a], scopes := m.scopes[sc := s.(queue := queue)]);
    AddAddrOK(c, sec, grown, sc, |m.heap|);
  }

  lemma {:induction false} CommitAllOK(c: Crypto, sec: Secrets, m: Mgr, sc: KeyScope, n: uint32, branch: uint32,
                                       s: seq<uint32>, made: seq<Address>)
    requires MgrOK(c, sec, m) && sc in m.scopes && n in m.scopes[sc].accounts
    requires BatchOK(c, sec, m, sc, n, branch, s, made)
    ensures var m' := CommitAll(c, m, sc, made);
            && MgrOK(c, sec, m') && m'.locked == m.locked && m'.scopes[sc].accounts == m.scopes[sc].accounts
            && m'.scopes[sc].schema == m.scopes[sc].schema && m'.heap == m.heap + made
            && m.scopes[sc].addrs.Keys <= m'.scopes[sc].addrs.Keys
            && forall k :: 0 <= k < |made| ==> c.script(made[k].pubKey, made[k].kind) in m'.scopes[sc].addrs
    decreases |made|
  {
    hide MgrOK, AddrOK, CommitOne, TypeOK;
    if made == [] {
      assert m.heap + made == m.heap;
    } else {
      assert made[0].path == Path(n, branch, s[0]) && TypeOK(m, made[0]);
      CommitOneOK(c, sec, m, sc, made[0]);
      BatchFrame(c, sec, m, CommitOne(c, m, sc, made[0]), sc, n, branch, s, made);
      CommitAllOK(c, sec, CommitOne(c, m, sc, made[0]), sc, n, branch, s[1..], made[1..]);
      assert m.heap + [made[0]] + made[1..] == m.heap + made;
    }
  }

  lemma CountedOK(c: Crypto, sec: Secrets, m: Mgr, sc: KeyScope, n: uint32, q: A.Ask, next: uint32, last: nat)
    requires MgrOK(c, sec, m) && sc in m.scopes && n in m.scopes[sc].accounts
    ensures MgrOK(c, sec, WithAccount(m, sc, n, Moved(m.scopes[sc].accounts[n], q, next, last)))
  {
    hide MgrOK, WithAccount, OpenKey, AccountOK;
    var a := m.scopes[sc].accounts[n];
    CachedAccount(c, sec, m, sc, n);
    SameKeys(c, sec, sc, n, a, Moved(a, q, next, last));
    AddAccountOK(c, sec, m, sc, n, Moved(a, q, next, last));
  }

  /** Rewriting an account's counters keeps its row on its path and the table consistent. */
  lemma MoveRowOK(c: Crypto, sec: Secrets, db: Db, sc: KeyScope, n: uint32, branch: uint32, s: seq<uint32>)
    requires DbOK(c, sec, db) && sc in db && n in db[sc].table.rows && Consistent(db[sc].table)
    requires s != [] && (branch == INTERNAL || branch == EXTERNAL)
    ensures DbOK(c, sec, MoveRow(db, sc, n, branch, s)) && MoveRow(db, sc, n, branch, s).Keys == db.Keys
    ensures Consistent(MoveRow(db, sc, n, branch, s)[sc].table)
    ensures forall t :: t in db && t != sc ==> MoveRow(db, sc, n, branch, s)[t] == db[t]
  {
    hide ScopeOK, MoveRow, Consistent;
    assert ScopeOK(c, sec, sc, db[sc]);
    MoveRowHere(c, sec, db, sc, n, branch, s);
    MoveRowElsewhere(db, sc, n, branch, s);
  }

  lemma MoveRowHere(c: Crypto, sec: Secrets, db: Db, sc: KeyScope, n: uint32, branch: uint32, s: seq<uint32>)
    requires sc in db && ScopeOK(c, sec, sc, db[sc]) && n in db[sc].table.rows && Consistent(db[sc].table)
    requires s != [] && (branch == INTERNAL || branch == EXTERNAL)
    ensures var d := MoveRow(db, sc, n, branch, s)[sc]; ScopeOK(c, sec, sc, d) && Consistent(d.table)
  {
    hide OpenKey, AccountKey, DeriveCoinTypeKey, A.StoreAll;
    A.StoreAllMovesOneCounter(db[sc].table.rows[n], branch, s);
  }

  lemma MoveRowElsewhere(db: Db, sc: KeyScope, n: uint32, branch: uint32, s: seq<uint32>)
    requires sc in db && n in db[sc].table.rows
    ensures MoveRow(db, sc, n, branch, s).Keys == db.Keys
    ensures forall t :: t in db && t != sc ==> MoveRow(db, sc, n, branch, s)[t] == db[t]
  {
    hide A.StoreAll;
  }

  /** nextAddresses keeps the invariant of manager and database, however it ends. */
  lemma NextAddressesOK(c: Crypto, sec: Secrets, m: Mgr, db: Db, sc: KeyScope, n: uint32, q: A.Ask, rand: Prng)
    requires Lawful(c) && MgrOK(c, sec, m) && DbOK(c, sec, db) && sc in m.scopes
    requires forall t :: t in db ==> Consistent(db[t].table)
    ensures var (m', db', _) := NextAddresses(c, m, db, sc, n, q, rand);
            && MgrOK(c, sec, m') && DbOK(c, sec, db') && m'.scopes.Keys == m.scopes.Keys && db'.Keys == db.Keys
            && forall t :: t in db' ==> Consistent(db'[t].table)
  {
    hide Lawful, MgrOK, DbOK, Consistent, LoadAccount, BuildAll, StoreBatch, Indices, BatchOK;
    LoadAccountOK(c, sec, m, db, sc, n, rand);
    var (m1, loaded) := LoadAccount(c, m, db, sc, n, rand);
    if loaded.Ok? && Indices(c, m1, m1.scopes[sc].accounts[n], q).Ok? {
      var s := Indices(c, m1, m1.scopes[sc].accounts[n], q).value;
      var made := BuildAll(c, m1, sc, m1.scopes[sc].accounts[n], n, A.Branch(q), s, rand, 1);
      if made.Ok? {
        BuildAllOK(c, sec, m1, sc, n, A.Branch(q), s, rand, 1);
        StoreBatchOK(c, sec, m1, db, sc, n, q, s, made.value, rand);
      }
    }
  }

  lemma StoreBatchOK(c: Crypto, sec: Secrets, m: Mgr, db: Db, sc: KeyScope, n: uint32, q: A.Ask, s: seq<uint32>,
                     made: seq<Address>, rand: Prng)
    requires Lawful(c) && MgrOK(c, sec, m) && DbOK(c, sec, db) && sc in m.scopes && n in m.scopes[sc].accounts
    requires (forall t :: t in db ==> Consistent(db[t].table)) && BatchOK(c, sec, m, sc, n, A.Branch(q), s, made)
    ensures var (m', db', _) := StoreBatch(c, m, db, sc, n, q, s, made, rand);
            && MgrOK(c, sec, m') && DbOK(c, sec, db') && m'.scopes.Keys == m.scopes.Keys && db'.Keys == db.Keys
            && forall t :: t in db' ==> Consistent(db'[t].table)
  {
    hide Lawful, MgrOK, DbOK, Consistent, CacheAll, CommitBatch, MoveRow, BatchOK;
    CacheAllOK(c, sec, m, db, sc, n, made, rand, 1 + |made|) by { BatchPaths(c, sec, m, sc, n, A.Branch(q), s, made); }
    var m2 := CacheAll(c, m, db, sc, made, rand, 1 + |made|).0;
    if s != [] && sc in db && n in db[sc].table.rows {
      CommitBatchOK(c, sec, m2, sc, n, q, s, (s[|s| - 1] + 1) % W32, made)
        by { BatchFrame(c, sec, m, m2, sc, n, A.Branch(q), s, made); }
      MoveRowOK(c, sec, db, sc, n, A.Branch(q), s);
    }
  }

  lemma CommitBatchOK(c: Crypto, sec: Secrets, m: Mgr, sc: KeyScope, n: uint32, q: A.Ask, s: seq<uint32>,
                      next: uint32, made: seq<Address>)
    requires MgrOK(c, sec, m) && sc in m.scopes && n in m.scopes[sc].accounts
    requires BatchOK(c, sec, m, sc, n, A.Branch(q), s, made)
    ensures var m' := CommitBatch(c, m, sc, n, q, next, made);
            && MgrOK(c, sec, m') && m'.locked == m.locked && m'.heap == m.heap + made && n in m'.scopes[sc].accounts
            && CachedCounter(m'.scopes[sc].accounts[n], q) == next
            && m'.scopes[sc].schema == m.scopes[sc].schema
            && forall k :: 0 <= k < |made| ==> c.script(made[k].pubKey, made[k].kind) in m'.scopes[sc].addrs
  {
    hide MgrOK, BatchOK, WithAccount, CommitAll;
    var last := if made == [] then 0 else |m.heap| + (|made| - 1);
    var b := Moved(m.scopes[sc].accounts[n], q, next, last);
    CountedOK(c, sec, m, sc, n, q, next, last);
    WithAccountFacts(m, sc, n, b);
    WithAccountKeys(m, sc, n, b);
    BatchFrame(c, sec, m, WithAccount(m, sc, n, b), sc, n, A.Branch(q), s, made);
    CommitAllOK(c, sec, WithAccount(m, sc, n, b), sc, n, A.Branch(q), s, made);
  }

  lemma WithAccountKeys(m: Mgr, sc: KeyScope, n: uint32, a: Account)
    requires sc in m.scopes
    ensures WithAccount(m, sc, n, a).scopes.Keys == m.scopes.Keys
    ensures WithAccount(m, sc, n, a).heap == m.heap
    ensures WithAccount(m, sc, n, a).scopes[sc].accounts == m.scopes[sc].accounts[n := a]
    ensures WithAccount(m, sc, n, a).scopes[sc].schema == m.scopes[sc].schema
  {
  }

  // --------------------------------------------------------------- what it hands out

  ghost predicate HandsOut(c: Crypto, sec: Secrets, m: Mgr, sc: KeyScope, n: uint32, q: A.Ask, s: seq<uint32>,
                           refs: seq<nat>) {
    && |refs| == |s| == q.num
    && forall k :: 0 <= k < |s| ==>
         && refs[k] < |m.heap| && m.heap[refs[k]].scope == sc
         && m.heap[refs[k]].path == Path(n, if q.internal then 1 else 0, s[k])
         && AddrOK(c, sec, m.heap[refs[k]]) && TypeOK(m, m.heap[refs[k]])
         && c.script(m.heap[refs[k]].pubKey, m.heap[refs[k]].kind) in m.scopes[sc].addrs
         && (if m.locked then Queued(m, refs[k]) else m.heap[refs[k]].privEnc != [])
  }

  lemma IndicesAscend(c: Crypto, m: Mgr, a: Account, q: A.Ask)
    requires Indices(c, m, a, q).Ok?
    ensures var s := Indices(c, m, a, q).value;
            && |s| == q.num
            && (forall k :: 0 <= k < |s| ==> CachedCounter(a, q) <= s[k] < W32 - 1)
            && (forall j, k :: 0 <= j < k < |s| ==> s[j] < s[k])
  {
    hide A.First, A.OverLimit;
    A.FirstAscends(c, c.child(WorkingKey(m, a).value, A.Branch(q)).key, CachedCounter(a, q), q.num);
  }

  lemma BatchHandsOut(c: Crypto, sec: Secrets, m: Mgr, sc: KeyScope, n: uint32, q: A.Ask, s: seq<uint32>,
                      made: seq<Address>, before: Mgr)
    requires MgrOK(c, sec, m) && BatchOK(c, sec, m, sc, n, A.Branch(q), s, made) && m.heap == before.heap + made
    requires |s| == q.num && sc in m.scopes
    requires forall k :: 0 <= k < |made| ==> c.script(made[k].pubKey, made[k].kind) in m.scopes[sc].addrs
    ensures HandsOut(c, sec, m, sc, n, q, s, Refs(before, made))
  {
    hide AddrOK, MgrOK, Queued, BatchOK, TypeOK;
    var refs := Refs(before, made);
    assert |refs| == |s| by { BatchSize(c, sec, m, sc, n, A.Branch(q), s, made); }
    forall k | 0 <= k < |s|
      ensures refs[k] < |m.heap| && m.heap[refs[k]].scope == sc && m.heap[refs[k]].path == Path(n, A.Branch(q), s[k])
      ensures AddrOK(c, sec, m.heap[refs[k]]) && TypeOK(m, m.heap[refs[k]])
      ensures c.script(m.heap[refs[k]].pubKey, m.heap[refs[k]].kind) in m.scopes[sc].addrs
      ensures if m.locked then Queued(m, refs[k]) else m.heap[refs[k]].privEnc != []
    {
      HandedAddress(c, sec, m, sc, n, A.Branch(q), s, made, before, k);
    }
  }

  lemma BatchSize(c: Crypto, sec: Secrets, m: Mgr, sc: KeyScope, n: uint32, branch: uint32, s: seq<uint32>,
                  made: seq<Address>)
    requires BatchOK(c, sec, m, sc, n, branch, s, made)
    ensures |made| == |s|
  {
  }

  lemma HandedAddress(c: Crypto, sec: Secrets, m: Mgr, sc: KeyScope, n: uint32, branch: uint32, s: seq<uint32>,
                      made: seq<Address>, before: Mgr, k: nat)
    requires MgrOK(c, sec, m) && BatchOK(c, sec, m, sc, n, branch, s, made) && m.heap == before.heap + made && k < |s|
    ensures |made| == |s| && m.heap[|before.heap| + k] == made[k]
    ensures var a := m.heap[|before.heap| + k];
            && a.scope == sc && a.path == Path(n, branch, s[k]) && AddrOK(c, sec, a) && TypeOK(m, a)
            && (if m.locked then Queued(m, |before.heap| + k) else a.privEnc != [])
  {
    hide AddrOK, Base, Mode, AccountsOK, Structured, Queued;
    assert m.heap[|before.heap| + k] == made[k];
    HeapAt(c, sec, m, |before.heap| + k);
  }

  /** The outcome of a successful request at the indices s. */
  ghost predicate Delivered(c: Crypto, sec: Secrets, sc: KeyScope, n: uint32, q: A.Ask, s: seq<uint32>, m: Mgr, db: Db,
                            refs: seq<nat>) {
    && s != [] && HandsOut(c, sec, m, sc, n, q, s, refs)
    && sc in m.scopes && n in m.scopes[sc].accounts
    && CachedCounter(m.scopes[sc].accounts[n], q) == s[|s| - 1] as int + 1
    && sc in db && n in db[sc].table.rows && RowCounter(db[sc].table.rows[n], q) == s[|s| - 1] as int + 1
  }

  lemma StoreBatchDelivers(c: Crypto, sec: Secrets, m: Mgr, db: Db, sc: KeyScope, n: uint32, q: A.Ask, s: seq<uint32>,
                           made: seq<Address>, rand: Prng, m': Mgr, db': Db, refs: seq<nat>)
    requires Lawful(c) && MgrOK(c, sec, m) && DbOK(c, sec, db) && sc in m.scopes && n in m.scopes[sc].accounts
    requires BatchOK(c, sec, m, sc, n, A.Branch(q), s, made) && |s| == q.num && (s != [] ==> s[|s| - 1] < W32 - 1)
    requires StoreBatch(c, m, db, sc, n, q, s, made, rand) == (m', db', Ok(refs))
    ensures Delivered(c, sec, sc, n, q, s, m', db', refs)
  {
    hide Lawful, MgrOK, DbOK, CacheAll, CommitBatch, HandsOut, BatchOK, A.StoreAll, CachedCounter, Refs;
    CacheAllOK(c, sec, m, db, sc, n, made, rand, 1 + |made|) by { BatchPaths(c, sec, m, sc, n, A.Branch(q), s, made); }
    var m2 := CacheAll(c, m, db, sc, made, rand, 1 + |made|).0;
    BatchFrame(c, sec, m, m2, sc, n, A.Branch(q), s, made);
    CommitBatchOK(c, sec, m2, sc, n, q, s, s[|s| - 1] + 1, made);
    BatchFrame(c, sec, m, m', sc, n, A.Branch(q), s, made);
    BatchHandsOut(c, sec, m', sc, n, q, s, made, m2);
    A.StoreAllMovesOneCounter(db[sc].table.rows[n], A.Branch(q), s);
  }

  lemma BatchFrame(c: Crypto, sec: Secrets, m: Mgr, m': Mgr, sc: KeyScope, n: uint32, branch: uint32, s: seq<uint32>,
                   made: seq<Address>)
    requires BatchOK(c, sec, m, sc, n, branch, s, made) && m'.locked == m.locked
    requires sc in m.scopes && sc in m'.scopes && m'.scopes[sc].schema == m.scopes[sc].schema
    ensures BatchOK(c, sec, m', sc, n, branch, s, made)
  {
    hide AddrOK;
  }

  /** A successful nextAddresses hands out as many addresses as asked for, at the first valid
      indices from the branch's counter on, each with the public key of
      its path and the type of its branch, each in the scope's cache, queued for unlock if
      the manager is locked and holding its sealed key otherwise; the cached and the stored
      counter both move just past the last index. */
  lemma NextAddressesDelivers(c: Crypto, sec: Secrets, m: Mgr, db: Db, sc: KeyScope, n: uint32, q: A.Ask, rand: Prng,
                              m': Mgr, db': Db, refs: seq<nat>) returns (s: seq<uint32>)
    requires Lawful(c) && MgrOK(c, sec, m) && DbOK(c, sec, db) && sc in m.scopes
    requires NextAddresses(c, m, db, sc, n, q, rand) == (m', db', Ok(refs))
    ensures Delivered(c, sec, sc, n, q, s, m', db', refs)
    ensures forall j, k :: 0 <= j < k < |s| ==> s[j] < s[k]
    ensures n in m.scopes[sc].accounts ==>
              forall k :: 0 <= k < |s| ==> s[k] >= CachedCounter(m.scopes[sc].accounts[n], q)
    ensures LoadAccount(c, m, db, sc, n, rand).1.Ok?
    ensures Indices(c, LoadAccount(c, m, db, sc, n, rand).0,
                    LoadAccount(c, m, db, sc, n, rand).0.scopes[sc].accounts[n], q) == Ok(s)
    ensures ToHandOut(c, LoadAccount(c, m, db, sc, n, rand).0,
                      LoadAccount(c, m, db, sc, n, rand).0.scopes[sc].accounts[n], q, s)
  {
    hide Lawful, MgrOK, DbOK, LoadRowInto, BuildAll, StoreBatch, Indices, BatchOK, Delivered, CachedCounter, ToHandOut;
    LoadAccountOK(c, sec, m, db, sc, n, rand);
    var m1 := LoadAccount(c, m, db, sc, n, rand).0;
    var a := m1.scopes[sc].accounts[n];
    s := Indices(c, m1, a, q).value;
    IndicesExact(c, m1, a, q);
    IndicesAscend(c, m1, a, q);
    BuildAllOK(c, sec, m1, sc, n, A.Branch(q), s, rand, 1);
    StoreBatchDelivers(c, sec, m1, db, sc, n, q, s, BuildAll(c, m1, sc, a, n, A.Branch(q), s, rand, 1).value, rand, m',
                       db', refs);
  }

  // ------------------------------------------------------------------ when it succeeds

  /** The key a sound manager derives addresses of a cached account from. */
  function DerivedKey(c: Crypto, m: Mgr, sc: KeyScope, path: Path): Outcome<ExtKey>
    requires sc in m.scopes && path.account in m.scopes[sc].accounts
  {
    DeriveKey(c, WorkingKey(m, m.scopes[sc].accounts[path.account]), path.branch, path.index)
  }

  lemma ValidateExact(c: Crypto, a: Address, msg: Bytes, k: ExtKey)
    requires Lawful(c) && a.privCT == c.scalar(k) && a.pubKey == c.pointOf(c.scalar(k))
    ensures Validate(c, a, msg, c.scalar(k)).Ok? <==> KeyType(a.kind)
  {
    hide HashLaws, BoxLaws, ChildLaws, KeyLaws;
    assert SignLaws(c);
    assert c.sign(a.kind, c.scalar(k), msg).Some?;
  }

  /** Building an address from a key that re-derives from its account: validation never fails
      on a type that has an address. */
  lemma BuildExact(c: Crypto, m: Mgr, sc: KeyScope, kind: byte, key: ExtKey, path: Path, acctPriv: Option<ExtKey>,
                   rand: Prng, i: nat)
    requires Lawful(c) && (key.isPrivate && acctPriv.Some? ==>
                           DeriveKey(c, acctPriv, path.branch, path.index) == Ok(key))
    ensures NewAddress(c, m, sc, kind, key, path, acctPriv, rand, i).Ok? <==> Buildable(m, key.isPrivate, kind, rand, i)
  {
    hide Lawful, DeriveKey, Validate, ReadRandom;
    if key.isPrivate && TwoReads(rand, i) {
      var privEnc := SealWith(c, m.cryptoPriv, c.scalar(key), rand, 2 * i).value;
      var a := Address(sc, path, c.pointOf(c.scalar(key)), kind, path.branch == INTERNAL, privEnc, c.scalar(key));
      ValidateExact(c, a, Challenge(rand, i).value, key);
    }
  }

  /** A private address is built only if the account's own key derives a key with the same
      public key for its path: the second validation. */
  lemma BuiltMatchesAccount(c: Crypto, m: Mgr, sc: KeyScope, kind: byte, key: ExtKey, path: Path,
                            acctPriv: Option<ExtKey>, rand: Prng, i: nat)
    requires key.isPrivate && acctPriv.Some? && NewAddress(c, m, sc, kind, key, path, acctPriv, rand, i).Ok?
    ensures DeriveKey(c, acctPriv, path.branch, path.index).Ok?
    ensures NewAddress(c, m, sc, kind, key, path, acctPriv, rand, i).value.pubKey ==
            c.pointOf(c.scalar(DeriveKey(c, acctPriv, path.branch, path.index).value))
  {
    hide DeriveKey;
  }

  lemma NewAddressExact(c: Crypto, sec: Secrets, m: Mgr, sc: KeyScope, path: Path, rand: Prng, i: nat)
    requires Lawful(c) && MgrOK(c, sec, m) && sc in m.scopes && path.account in m.scopes[sc].accounts
    requires DerivedKey(c, m, sc, path).Ok?
    ensures var a := m.scopes[sc].accounts[path.account];
            NewAddress(c, m, sc, AddrType(m.scopes[sc].schema, path.branch), DerivedKey(c, m, sc, path).value, path,
                       a.keyPriv, rand, i).Ok?
            <==> Buildable(m, !m.locked, AddrType(m.scopes[sc].schema, path.branch), rand, i)
  {
    hide Lawful, MgrOK, DeriveKey, AccountOK, OpenKey, KeyOf, NewAddress, TwoReads;
    CachedAccount(c, sec, m, sc, path.account);
    var a := m.scopes[sc].accounts[path.account];
    WorkingKeyOf(c, sec, sc, path, m, a);
    BuildExact(c, m, sc, AddrType(m.scopes[sc].schema, path.branch), DerivedKey(c, m, sc, path).value, path, a.keyPriv,
               rand, i);
  }

  /** The account loadAccountInfo should cache: the keys of its path, the private one only
      while unlocked, and the stored name and counters. */
  ghost predicate Loaded(c: Crypto, sec: Secrets, sc: KeyScope, n: uint32, row: AcctRow, locked: bool, a: Account) {
    && AccountKey(c, sec.root, sc, n).Ok?
    && var k := AccountKey(c, sec.root, sc, n).value;
    && a.keyPriv == (if locked then None else Some(k)) && Some(a.keyPub) == c.neuter(k) && a.keyEnc == row.privEnc
    && a.name == row.name && a.nextExternal == row.nextExternal && a.nextInternal == row.nextInternal
  }

  /** A stored account that is not cached loads exactly when its last external address
      derives and can be built; what is cached are the keys of its path. */
  lemma LoadAccountExact(c: Crypto, sec: Secrets, m: Mgr, db: Db, sc: KeyScope, n: uint32, rand: Prng)
    requires Lawful(c) && MgrOK(c, sec, m) && DbOK(c, sec, db) && sc in m.scopes && sc in db
    requires n !in m.scopes[sc].accounts && n in db[sc].table.rows && n != IMPORTED
    ensures AccountKey(c, sec.root, sc, n).Ok?
    ensures var row, k := db[sc].table.rows[n], AccountKey(c, sec.root, sc, n).value;
            LoadAccount(c, m, db, sc, n, rand).1.Ok? <==>
            && DeriveKey(c, if m.locked then c.neuter(k) else Some(k), EXTERNAL,
                         if row.nextExternal == 0 then 0 else row.nextExternal - 1).Ok?
            && Buildable(m, !m.locked, m.scopes[sc].schema.external, rand, 0)
    ensures LoadAccount(c, m, db, sc, n, rand).1.Ok? ==>
            Loaded(c, sec, sc, n, db[sc].table.rows[n], m.locked,
                   LoadAccount(c, m, db, sc, n, rand).0.scopes[sc].accounts[n])
  {
    hide Lawful, MgrOK, DeriveKey, AccountKey, NewAddress, KeyOf, AccountFrom, WorkingKey, RowHolds, OpenKey, Nonce;
    var row := db[sc].table.rows[n];
    assert RowOK(c, sec, sc, n, row) by { assert ScopeOK(c, sec, sc, db[sc]); }
    LoadedKeys(c, sec, m, sc, n, row);
    var a := AccountFrom(c, m, row, OpenKey(c, m.cryptoPub, row.pubEnc).value);
    if DeriveKey(c, WorkingKey(m, a), EXTERNAL, LastIndex(row)).Ok? {
      FirstAddressExact(c, sec, m, sc, n, row, rand);
    }
  }

  lemma LoadedKeys(c: Crypto, sec: Secrets, m: Mgr, sc: KeyScope, n: uint32, row: AcctRow)
    requires Lawful(c) && MgrOK(c, sec, m) && RowOK(c, sec, sc, n, row)
    ensures OpenKey(c, m.cryptoPub, row.pubEnc).Some?
    ensures var a := AccountFrom(c, m, row, OpenKey(c, m.cryptoPub, row.pubEnc).value);
            && (forall i :: Loaded(c, sec, sc, n, row, m.locked, a.(lastInternal := i)))
            && WorkingKey(m, a) ==
               if m.locked then c.neuter(AccountKey(c, sec.root, sc, n).value)
                 else Some(AccountKey(c, sec.root, sc, n).value)
  {
    hide Lawful, MgrOK, AccountKey, OpenKey;
    NetOf(c, sec, m);
    RowAccountOK(c, sec, m, sc, n, row);
  }

  lemma FirstAddressExact(c: Crypto, sec: Secrets, m: Mgr, sc: KeyScope, n: uint32, row: AcctRow, rand: Prng)
    requires Lawful(c) && MgrOK(c, sec, m) && sc in m.scopes && RowOK(c, sec, sc, n, row)
    requires OpenKey(c, m.cryptoPub, row.pubEnc).Some?
    requires var a := AccountFrom(c, m, row, OpenKey(c, m.cryptoPub, row.pubEnc).value);
             DeriveKey(c, WorkingKey(m, a), EXTERNAL, LastIndex(row)).Ok?
    ensures var a := AccountFrom(c, m, row, OpenKey(c, m.cryptoPub, row.pubEnc).value);
            var key := DeriveKey(c, WorkingKey(m, a), EXTERNAL, LastIndex(row)).value;
            NewAddress(c, m, sc, AddrType(m.scopes[sc].schema, EXTERNAL), key, Path(n, EXTERNAL, LastIndex(row)),
                       a.keyPriv, rand, 0).Ok?
            <==> Buildable(m, !m.locked, m.scopes[sc].schema.external, rand, 0)
  {
    hide Lawful, MgrOK, DeriveKey, AccountKey, AccountOK, OpenKey, KeyOf, NewAddress, TwoReads;
    NetOf(c, sec, m);
    RootOf(c, sec, m);
    RowAccountOK(c, sec, m, sc, n, row);
    var a := AccountFrom(c, m, row, OpenKey(c, m.cryptoPub, row.pubEnc).value);
    OpenOfAccount(c, sec, sc, n, a);
    var path := Path(n, EXTERNAL, LastIndex(row));
    WorkingKeyOf(c, sec, sc, path, m, a);
    var key := DeriveKey(c, WorkingKey(m, a), EXTERNAL, LastIndex(row)).value;
    BuildExact(c, m, sc, AddrType(m.scopes[sc].schema, EXTERNAL), key, path, a.keyPriv, rand, 0);
  }

  /** On a sound manager with the account cached, DeriveFromKeyPath succeeds exactly when
      the path derives and an address can be built from it; caching it needs an address type in any case. */
  lemma DeriveAddressExact(c: Crypto, sec: Secrets, m: Mgr, db: Db, sc: KeyScope, path: Path, rand: Prng)
    requires Lawful(c) && MgrOK(c, sec, m) && sc in m.scopes && path.account in m.scopes[sc].accounts
    ensures DeriveAddress(c, m, db, sc, path, rand).1.Ok? <==>
            && DerivedKey(c, m, sc, path).Ok?
            && Buildable(m, !m.locked, if path.branch == 1 then m.scopes[sc].schema.internal
                                       else m.scopes[sc].schema.external, rand, 1)
    ensures CacheAddress(c, m, db, sc, path, rand).1.Ok? <==>
            && DeriveAddress(c, m, db, sc, path, rand).1.Ok?
            && KeyType(if path.branch == 1 then m.scopes[sc].schema.internal else m.scopes[sc].schema.external)
  {
    hide Lawful, MgrOK, DeriveKey, NewAddress, TwoReads;
    if DerivedKey(c, m, sc, path).Ok? {
      NewAddressExact(c, sec, m, sc, path, rand, 1);
      var kind, key, a := AddrType(m.scopes[sc].schema, path.branch), DerivedKey(c, m, sc, path).value,
          m.scopes[sc].accounts[path.account];
      if NewAddress(c, m, sc, kind, key, path, a.keyPriv, rand, 1).Ok? {
        NewAddressKind(c, m, sc, kind, key, path, a.keyPriv, rand, 1);
      }
    }
  }

  /** On a sound unlocked manager an address derived from a cached account keeps its clear
      private key over lock(): nothing but the caller refers to it, and lock() looks in the
      address caches only.  PrivKey refuses, but the key of its path stays in the object. */
  lemma DerivedKeepsClearKey(c: Crypto, sec: Secrets, m: Mgr, db: Db, sc: KeyScope, path: Path, rand: Prng, ref: nat)
    requires Lawful(c) && MgrOK(c, sec, m) && !m.locked && sc in m.scopes && path.account in m.scopes[sc].accounts
    requires DeriveAddress(c, m, db, sc, path, rand).1 == Ok(ref)
    ensures AddressKey(c, sec.root, sc, path).Ok?
    ensures var l := LockOf(DeriveAddress(c, m, db, sc, path, rand).0);
            && ref < |l.heap| && l.locked && PrivKey(c, l, ref).1 == Err(ErrLocked)
            && l.heap[ref].privCT == c.scalar(AddressKey(c, sec.root, sc, path).value) && l.heap[ref].privCT != []
  {
    hide Lawful, MgrOK, DeriveKey, NewAddress, AccountOK, OpenKey, KeyOf, LockOf, InCache, AddressKey, AddrOK;
    var m' := DeriveAddress(c, m, db, sc, path, rand).0;
    var a := m.scopes[sc].accounts[path.account];
    CachedAccount(c, sec, m, sc, path.account);
    WorkingKeyOf(c, sec, sc, path, m, a);
    var key := DerivedKey(c, m, sc, path).value;
    DerivedObject(c, m, db, sc, path, rand, ref);
    assert !InCache(m', ref) by { NotYetCached(c, sec, m, m', ref); }
    ClearKeyOf(c, sec, m, sc, path, key, m'.heap[ref], rand);
    LockFacts(m');
    LockKeepsClear(m', ref);
  }

  /** What DeriveFromKeyPath hands out: a new address object of the scope and path with the
      public key of the path and the type of its branch, sealed exactly when unlocked, and
      without any private material when locked. */
  lemma DerivedAddress(c: Crypto, sec: Secrets, m: Mgr, db: Db, sc: KeyScope, path: Path, rand: Prng, ref: nat)
    requires Lawful(c) && MgrOK(c, sec, m) && DbOK(c, sec, db) && sc in m.scopes
    requires DeriveAddress(c, m, db, sc, path, rand).1 == Ok(ref)
    ensures var m' := DeriveAddress(c, m, db, sc, path, rand).0;
            && |m.heap| <= ref < |m'.heap| && m'.locked == m.locked
            && var a := m'.heap[ref];
            && a.scope == sc && a.path == path && AddrOK(c, sec, a)
            && a.kind == (if path.branch == 1 then m.scopes[sc].schema.internal else m.scopes[sc].schema.external)
            && (a.internal <==> path.branch == 1)
            && (a.privEnc != [] <==> !m.locked) && (m.locked ==> a.privCT == [])
  {
    hide Lawful, MgrOK, DbOK, LoadAccount, DeriveAddress, DeriveKey, NewAddress, AccountOK, OpenKey, KeyOf, AddressKey;
    AfterLoad(c, m, db, sc, path, rand);
    LoadAccountOK(c, sec, m, db, sc, path.account, rand);
    LoadGrows(c, m, db, sc, path.account, rand);
    var m1 := LoadAccount(c, m, db, sc, path.account, rand).0;
    var a := m1.scopes[sc].accounts[path.account];
    CachedAccount(c, sec, m1, sc, path.account);
    NetOf(c, sec, m1);
    DerivedObject(c, m1, db, sc, path, rand, ref);
    WorkingKeyOf(c, sec, sc, path, m1, a);
    NewAddressOK(c, sec, m1, sc, AddrType(m1.scopes[sc].schema, path.branch), DerivedKey(c, m1, sc, path).value, path,
                 a.keyPriv, rand, 1);
  }

  lemma LoadGrows(c: Crypto, m: Mgr, db: Db, sc: KeyScope, n: uint32, rand: Prng)
    requires sc in m.scopes
    ensures |LoadAccount(c, m, db, sc, n, rand).0.heap| >= |m.heap|
    ensures forall t :: t in m.scopes ==> LoadAccount(c, m, db, sc, n, rand).0.scopes[t].addrs == m.scopes[t].addrs
  {
    hide OpenKey, DeriveKey, NewAddress, AccountFrom, WorkingKey;
  }

  /** loadAndCacheAddress puts the new address into the scope's cache under its script
      address, and leaves every other cache entry alone. */
  lemma CachedAddress(c: Crypto, m: Mgr, db: Db, sc: KeyScope, path: Path, rand: Prng, ref: nat)
    requires sc in m.scopes && CacheAddress(c, m, db, sc, path, rand).1 == Ok(ref)
    ensures DeriveAddress(c, m, db, sc, path, rand).1 == Ok(ref)
    ensures var m' := CacheAddress(c, m, db, sc, path, rand).0;
            && ref < |m'.heap| && m'.heap == DeriveAddress(c, m, db, sc, path, rand).0.heap
            && var id := c.script(m'.heap[ref].pubKey, m'.heap[ref].kind);
            && (forall i :: i in m'.scopes[sc].addrs <==> i in m.scopes[sc].addrs || i == id)
            && (forall i :: i in m'.scopes[sc].addrs ==>
                  m'.scopes[sc].addrs[i] == if i == id then ref else m.scopes[sc].addrs[i])
            && (forall t :: t in m.scopes && t != sc ==> t in m'.scopes && m'.scopes[t].addrs == m.scopes[t].addrs)
  {
    hide LoadAccount, DeriveKey, NewAddress;
    LoadGrows(c, m, db, sc, path.account, rand);
  }

  lemma DerivedObject(c: Crypto, m: Mgr, db: Db, sc: KeyScope, path: Path, rand: Prng, ref: nat)
    requires sc in m.scopes && path.account in m.scopes[sc].accounts
    requires DeriveAddress(c, m, db, sc, path, rand).1 == Ok(ref)
    ensures DerivedKey(c, m, sc, path).Ok? && ref == |m.heap|
    ensures var m' := DeriveAddress(c, m, db, sc, path, rand).0;
            && |m'.heap| == |m.heap| + 1
            && NewAddress(c, m, sc, AddrType(m.scopes[sc].schema, path.branch), DerivedKey(c, m, sc, path).value, path,
                          m.scopes[sc].accounts[path.account].keyPriv, rand, 1) == Ok(m'.heap[ref])
            && m'.scopes.Keys == m.scopes.Keys && m'.watchingOnly == m.watchingOnly && m'.locked == m.locked
            && forall t :: t in m.scopes ==> m'.scopes[t].addrs == m.scopes[t].addrs
  {
    hide DeriveKey, NewAddress;
  }

  lemma NotYetCached(c: Crypto, sec: Secrets, m: Mgr, m': Mgr, ref: nat)
    requires MgrOK(c, sec, m) && ref == |m.heap| && m'.scopes.Keys == m.scopes.Keys
    requires forall t :: t in m.scopes ==> m'.scopes[t].addrs == m.scopes[t].addrs
    ensures !InCache(m', ref)
  {
    hide MgrOK;
    forall t | t in m.scopes ensures !CachedBy(m'.scopes[t].addrs, ref) {
      AddrsInHeap(c, sec, m, t);
    }
  }

  lemma ClearKeyOf(c: Crypto, sec: Secrets, m: Mgr, sc: KeyScope, path: Path, key: ExtKey, a: Address, rand: Prng)
    requires Lawful(c) && KeyOf(c, sec, sc, path, key) && key.isPrivate && sc in m.scopes
    requires path.account in m.scopes[sc].accounts
    requires NewAddress(c, m, sc, AddrType(m.scopes[sc].schema, path.branch), key, path,
                        m.scopes[sc].accounts[path.account].keyPriv, rand, 1) == Ok(a)
    ensures AddressKey(c, sec.root, sc, path) == Ok(key) && a.privCT == c.scalar(key) && a.privCT != []
  {
    hide HashLaws, BoxLaws, ChildLaws, SignLaws, AddressKey, DeriveKey, Validate;
    assert |c.scalar(key)| == 32;
  }

  lemma LockKeepsClear(m: Mgr, ref: nat)
    requires ref < |m.heap| && !InCache(m, ref) && !m.watchingOnly
    ensures LockOf(m).heap[ref] == m.heap[ref] && LockOf(m).locked && !LockOf(m).watchingOnly
  {
    hide InCache, LockedScopes;
  }

  /** What follows a load sees the loaded manager; without the load nothing succeeds. */
  lemma AfterLoad(c: Crypto, m: Mgr, db: Db, sc: KeyScope, path: Path, rand: Prng)
    requires sc in m.scopes
    ensures var (m1, loaded) := LoadAccount(c, m, db, sc, path.account, rand);
            if loaded.Ok? then
              && DeriveAddress(c, m, db, sc, path, rand) == DeriveAddress(c, m1, db, sc, path, rand)
              && CacheAddress(c, m, db, sc, path, rand) == CacheAddress(c, m1, db, sc, path, rand)
            else
              && (loaded.Err? ==> DeriveAddress(c, m, db, sc, path, rand) == (m, Err(loaded.code)))
              && (loaded.Err? ==> CacheAddress(c, m, db, sc, path, rand) == (m, Err(loaded.code)))
              && !DeriveAddress(c, m, db, sc, path, rand).1.Ok? && !CacheAddress(c, m, db, sc, path, rand).1.Ok?
  {
    hide LoadRowInto, DeriveKey, KeyToManaged;
  }

  lemma NextAfterLoad(c: Crypto, m: Mgr, db: Db, sc: KeyScope, n: uint32, q: A.Ask, rand: Prng)
    requires sc in m.scopes
    ensures var (m1, loaded) := LoadAccount(c, m, db, sc, n, rand);
            if loaded.Ok? then NextAddresses(c, m, db, sc, n, q, rand) == NextAddresses(c, m1, db, sc, n, q, rand)
            else
              && (loaded.Err? ==> NextAddresses(c, m, db, sc, n, q, rand) == (m, db, Err(loaded.code)))
              && !NextAddresses(c, m, db, sc, n, q, rand).2.Ok?
  {
    hide LoadRowInto, Indices, BuildAll, StoreBatch;
  }

  /** The reads of `n` private addresses from the i-th on, `gap` apart. */
  predicate ReadsFor(rand: Prng, i: nat, gap: nat, n: nat)
    decreases n
  {
    n == 0 || (TwoReads(rand, i) && ReadsFor(rand, i + gap, gap, n - 1))
  }

  lemma {:induction false} BuildAllExact(c: Crypto, sec: Secrets, m: Mgr, sc: KeyScope, n: uint32, branch: uint32,
                                         s: seq<uint32>, rand: Prng, i: nat)
    requires Lawful(c) && MgrOK(c, sec, m) && sc in m.scopes && n in m.scopes[sc].accounts
    requires KeyType(AddrType(m.scopes[sc].schema, branch))
    requires forall k :: 0 <= k < |s| ==> DerivedKey(c, m, sc, Path(n, branch, s[k])).Ok?
    ensures BuildAll(c, m, sc, m.scopes[sc].accounts[n], n, branch, s, rand, i).Ok? <==>
            s == [] || (m.net && (m.locked || ReadsFor(rand, i, 1, |s|)))
    decreases |s|
  {
    hide Lawful, MgrOK, DeriveKey, NewAddress, TwoReads;
    if s != [] {
      assert DerivedKey(c, m, sc, Path(n, branch, s[0])).Ok?;
      NewAddressExact(c, sec, m, sc, Path(n, branch, s[0]), rand, i);
      forall k | 0 <= k < |s[1..]| ensures DerivedKey(c, m, sc, Path(n, branch, s[1..][k])).Ok? {
        assert s[1..][k] == s[k + 1];
      }
      BuildAllExact(c, sec, m, sc, n, branch, s[1..], rand, i + 1);
    }
  }

  lemma SameDerivedKey(c: Crypto, sec: Secrets, m: Mgr, m': Mgr, sc: KeyScope, path: Path)
    requires MgrOK(c, sec, m) && MgrOK(c, sec, m') && sc in m.scopes && sc in m'.scopes
    requires path.account in m.scopes[sc].accounts
    requires m'.locked == m.locked && m'.scopes[sc].accounts == m.scopes[sc].accounts
    ensures DerivedKey(c, m', sc, path) == DerivedKey(c, m, sc, path)
  {
    hide MgrOK, DeriveKey;
    NetOf(c, sec, m);
    NetOf(c, sec, m');
  }

  lemma LaterReads(rand: Prng, k: nat, i: nat)
    ensures TwoReads(Later(rand, k), i) <==> TwoReads(rand, k + i)
  {
    assert 2 * k + 2 * i == 2 * (k + i) && 2 * k + (2 * i + 1) == 2 * (k + i) + 1;
  }

  /** What CacheAddress allocates for a cached account. */
  lemma CachedObject(c: Crypto, m: Mgr, db: Db, sc: KeyScope, path: Path, rand: Prng)
    requires sc in m.scopes && path.account in m.scopes[sc].accounts && CacheAddress(c, m, db, sc, path, rand).1.Ok?
    ensures DerivedKey(c, m, sc, path).Ok?
    ensures var (m1, ref) := CacheAddress(c, m, db, sc, path, rand);
            var made := NewAddress(c, m, sc, AddrType(m.scopes[sc].schema, path.branch),
                                   DerivedKey(c, m, sc, path).value, path,
                                   m.scopes[sc].accounts[path.account].keyPriv, rand, 1);
            made.Ok? && ref == Ok(|m.heap|) && m1.heap == m.heap + [made.value]
  {
    hide DeriveKey, NewAddress;
  }

  lemma NewAddressKind(c: Crypto, m: Mgr, sc: KeyScope, kind: byte, key: ExtKey, path: Path,
                       acctPriv: Option<ExtKey>, rand: Prng, i: nat)
    requires NewAddress(c, m, sc, kind, key, path, acctPriv, rand, i).Ok?
    ensures NewAddress(c, m, sc, kind, key, path, acctPriv, rand, i).value.kind == kind
  {
    hide Validate, DeriveKey;
  }

  /** Whatever the manager, an address read back is accepted exactly when it could be cached
      and has the script address and type of the one that was stored; one that has not is
      dropped from the cache again. */
  lemma ReadBackVerdict(c: Crypto, m: Mgr, db: Db, sc: KeyScope, a: Address, rand: Prng)
    requires sc in m.scopes
    ensures var (w, r) := ReadBack(c, m, db, sc, a, rand);
            var (m1, ref) := CacheAddress(c, m, db, sc, a.path, rand);
            && (r.Ok? <==> ref.Ok? && (ref.value < |m1.heap| ==>
                  && m1.heap[ref.value].kind == a.kind
                  && c.script(m1.heap[ref.value].pubKey, a.kind) == c.script(a.pubKey, a.kind)))
            && (r.Ok? ==> w == m1)
            && (ref.Ok? && !r.Ok? ==>
                  && r == Err(ErrAddrMismatch) && ref.value < |m1.heap| && w.heap == m1.heap
                  && c.script(m1.heap[ref.value].pubKey, m1.heap[ref.value].kind) !in w.scopes[sc].addrs)
  {
    hide CacheAddress;
  }

  /** managedAddress.Validate accepts exactly a type with an address, the matching public key,
      and a sample signature that can be made and verifies. */
  lemma ValidateVerdict(c: Crypto, a: Address, msg: Bytes, d: Bytes)
    ensures Validate(c, a, msg, d).Ok? <==>
            && a.kind in {0, 3, 4, 6} && a.pubKey == c.pointOf(d)
            && c.sign(a.kind, a.privCT, msg).Some?
            && c.verify(a.kind, a.pubKey, msg, c.sign(a.kind, a.privCT, msg).value)
    ensures a.pubKey != c.pointOf(d) ==> Validate(c, a, msg, d) == Err(ErrPubKeyMismatch)
  {
  }

  /** The comparison with the address read back never fires: both are built from the key of
      the same path.  What remains are the reads of the second object. */
  lemma ReadBackExact(c: Crypto, sec: Secrets, m: Mgr, db: Db, sc: KeyScope, a: Address, rand: Prng)
    requires Lawful(c) && MgrOK(c, sec, m) && sc in m.scopes && a.path.account in m.scopes[sc].accounts
    requires a.scope == sc && AddrOK(c, sec, a) && TypeOK(m, a)
    requires KeyType(a.kind)
    requires DerivedKey(c, m, sc, a.path).Ok?
    ensures ReadBack(c, m, db, sc, a, rand).1.Ok? <==> CacheAddress(c, m, db, sc, a.path, rand).1.Ok?
    ensures ReadBack(c, m, db, sc, a, rand).1.Ok? <==> m.net && (m.locked || TwoReads(rand, 1))
  {
    hide Lawful, MgrOK, DeriveKey, CacheAddress, DeriveAddress, NewAddress, TwoReads, AddressKey, Decrypt, AccountOK,
      OpenKey, KeyOf;
    DeriveAddressExact(c, sec, m, db, sc, a.path, rand);
    if CacheAddress(c, m, db, sc, a.path, rand).1.Ok? {
      CachedObject(c, m, db, sc, a.path, rand);
      var key, acct := DerivedKey(c, m, sc, a.path).value, m.scopes[sc].accounts[a.path.account];
      CachedAccount(c, sec, m, sc, a.path.account);
      NetOf(c, sec, m);
      WorkingKeyOf(c, sec, sc, a.path, m, acct);
      NewAddressOK(c, sec, m, sc, a.kind, key, a.path, acct.keyPriv, rand, 1);
      NewAddressKind(c, m, sc, a.kind, key, a.path, acct.keyPriv, rand, 1);
    }
  }

  /** The addresses of a batch as they are built: on their paths, of the branch's type. */
  ghost predicate BatchBuilt(c: Crypto, sec: Secrets, m: Mgr, sc: KeyScope, n: uint32, made: seq<Address>)
    requires sc in m.scopes && n in m.scopes[sc].accounts
  {
    forall k :: 0 <= k < |made| ==>
      && made[k].scope == sc && made[k].path.account == n && AddrOK(c, sec, made[k])
      && TypeOK(m, made[k]) && KeyType(made[k].kind)
      && DerivedKey(c, m, sc, made[k].path).Ok?
  }

  lemma BuiltFirst(c: Crypto, sec: Secrets, m: Mgr, sc: KeyScope, n: uint32, made: seq<Address>)
    requires sc in m.scopes && n in m.scopes[sc].accounts && BatchBuilt(c, sec, m, sc, n, made) && made != []
    ensures var a := made[0];
            && a.scope == sc && a.path.account == n && AddrOK(c, sec, a) && TypeOK(m, a) && KeyType(a.kind)
            && DerivedKey(c, m, sc, a.path).Ok?
  {
    hide DerivedKey, AddrOK, TypeOK;
  }

  lemma BuiltFrame(c: Crypto, sec: Secrets, m: Mgr, m': Mgr, sc: KeyScope, n: uint32, made: seq<Address>)
    requires MgrOK(c, sec, m) && MgrOK(c, sec, m') && sc in m.scopes && sc in m'.scopes && n in m.scopes[sc].accounts
    requires m'.locked == m.locked && m'.scopes[sc].accounts == m.scopes[sc].accounts
    requires m'.scopes[sc].schema == m.scopes[sc].schema && BatchBuilt(c, sec, m, sc, n, made) && made != []
    ensures BatchBuilt(c, sec, m', sc, n, made[1..])
  {
    hide MgrOK, DerivedKey, AddrOK;
    forall k | 0 <= k < |made| ensures DerivedKey(c, m', sc, made[k].path).Ok? && TypeOK(m', made[k]) {
      SameDerivedKey(c, sec, m, m', sc, made[k].path);
      assert TypeOK(m, made[k]);
    }
  }

  lemma {:induction false} CacheAllExact(c: Crypto, sec: Secrets, m: Mgr, db: Db, sc: KeyScope, n: uint32,
                                         made: seq<Address>, rand: Prng, i: nat)
    requires Lawful(c) && MgrOK(c, sec, m) && DbOK(c, sec, db) && sc in m.scopes && n in m.scopes[sc].accounts
    requires BatchBuilt(c, sec, m, sc, n, made)
    ensures CacheAll(c, m, db, sc, made, rand, i).1.Ok? <==>
            made == [] || (m.net && (m.locked || ReadsFor(rand, i + 1, 2, |made|)))
    decreases |made|
  {
    hide Lawful, MgrOK, DbOK, DerivedKey, ReadBack, TwoReads, Later, AddrOK, TypeOK, BatchBuilt, CacheAll, ReadsFor;
    if made == [] {
      CacheNone(c, m, db, sc, rand, i);
    } else {
      BuiltFirst(c, sec, m, sc, n, made);
      CacheMore(c, m, db, sc, made, rand, i);
      ReadBackExact(c, sec, m, db, sc, made[0], Later(rand, i));
      LaterReads(rand, i, 1);
      ReadBackOK(c, sec, m, db, sc, made[0], Later(rand, i));
      var m1 := ReadBack(c, m, db, sc, made[0], Later(rand, i)).0;
      BuiltFrame(c, sec, m, m1, sc, n, made);
      CacheAllExact(c, sec, m1, db, sc, n, made[1..], rand, i + 2);
    }
  }

  lemma CacheNone(c: Crypto, m: Mgr, db: Db, sc: KeyScope, rand: Prng, i: nat)
    requires sc in m.scopes
    ensures CacheAll(c, m, db, sc, [], rand, i) == (m, Ok(()))
  {
  }

  lemma CacheMore(c: Crypto, m: Mgr, db: Db, sc: KeyScope, made: seq<Address>, rand: Prng, i: nat)
    requires sc in m.scopes && made != []
    ensures var (m1, back) := ReadBack(c, m, db, sc, made[0], Later(rand, i));
            CacheAll(c, m, db, sc, made, rand, i).1.Ok? <==>
            back.Ok? && CacheAll(c, m1, db, sc, made[1..], rand, i + 2).1.Ok?
    ensures ReadsFor(rand, i + 1, 2, |made|) <==> TwoReads(rand, i + 1) && ReadsFor(rand, i + 3, 2, |made[1..]|)
    ensures made[1..] == [] ==> ReadsFor(rand, i + 3, 2, |made[1..]|)
  {
    hide ReadBack, Later, TwoReads;
  }

  lemma IndicesDerive(c: Crypto, m: Mgr, sc: KeyScope, n: uint32, q: A.Ask)
    requires sc in m.scopes && n in m.scopes[sc].accounts && Indices(c, m, m.scopes[sc].accounts[n], q).Ok?
    ensures var s := Indices(c, m, m.scopes[sc].accounts[n], q).value;
            |s| == q.num && forall k :: 0 <= k < |s| ==> DerivedKey(c, m, sc, Path(n, A.Branch(q), s[k])).Ok?
  {
    hide A.First, A.OverLimit;
    var a := m.scopes[sc].accounts[n];
    A.FirstAscends(c, c.child(WorkingKey(m, a).value, A.Branch(q)).key, CachedCounter(a, q), q.num);
  }

  lemma {:induction false} BuildAllKinds(c: Crypto, m: Mgr, sc: KeyScope, a: Account, n: uint32, branch: uint32,
                                         s: seq<uint32>, rand: Prng, i: nat)
    requires sc in m.scopes && BuildAll(c, m, sc, a, n, branch, s, rand, i).Ok?
    ensures var made := BuildAll(c, m, sc, a, n, branch, s, rand, i).value;
            forall k :: 0 <= k < |made| ==> made[k].kind == AddrType(m.scopes[sc].schema, branch)
    decreases |s|
  {
    hide NewAddress, DeriveKey;
    if s != [] {
      var key := DeriveKey(c, WorkingKey(m, a), branch, s[0]).value;
      NewAddressKind(c, m, sc, AddrType(m.scopes[sc].schema, branch), key, Path(n, branch, s[0]), a.keyPriv, rand, i);
      BuildAllKinds(c, m, sc, a, n, branch, s[1..], rand, i + 1);
    }
  }

  /** The indices a request on a cached account is to hand out: from the branch's counter, the
      first valid children of the key the manager works with. */
  ghost predicate ToHandOut(c: Crypto, m: Mgr, a: Account, q: A.Ask, s: seq<uint32>) {
    && WorkingKey(m, a).Some?
    && A.Chosen(c, WorkingKey(m, a).value, if q.internal then a.nextInternal else a.nextExternal, q, s)
  }

  lemma IndicesExact(c: Crypto, m: Mgr, a: Account, q: A.Ask)
    ensures forall s :: Indices(c, m, a, q) == Ok(s) <==> ToHandOut(c, m, a, q, s)
    ensures Indices(c, m, a, q).Ok? <==> exists s :: ToHandOut(c, m, a, q, s)
  {
    hide A.Choose, A.Chosen;
    forall s ensures Indices(c, m, a, q) == Ok(s) <==> ToHandOut(c, m, a, q, s) {
      if WorkingKey(m, a).Some? { A.ChooseExact(c, WorkingKey(m, a).value, CachedCounter(a, q), q, s); }
    }
    if Indices(c, m, a, q).Ok? {
      assert ToHandOut(c, m, a, q, Indices(c, m, a, q).value);
    }
  }

  /** The batch's own reads and those of the addresses read back. */
  predicate BatchReads(rand: Prng, num: nat) {
    ReadsFor(rand, 1, 1, num) && ReadsFor(rand, 2 + num, 2, num)
  }

  /** A request that fails, whatever for, leaves the stored rows as they were. */
  lemma NextAddressesRollsBack(c: Crypto, m: Mgr, db: Db, sc: KeyScope, n: uint32, q: A.Ask, rand: Prng)
    requires sc in m.scopes
    ensures !NextAddresses(c, m, db, sc, n, q, rand).2.Ok? ==> NextAddresses(c, m, db, sc, n, q, rand).1 == db
  {
    hide LoadAccount, Indices, BuildAll, CacheAll, CommitBatch, MoveRow, Refs;
  }

  /** A request beyond the limit of addresses per account is refused as such and changes
      nothing. */
  lemma NextAddressesRefuses(c: Crypto, sec: Secrets, m: Mgr, db: Db, sc: KeyScope, n: uint32, q: A.Ask, rand: Prng)
    requires MgrOK(c, sec, m) && sc in m.scopes && n in m.scopes[sc].accounts
    ensures var a := m.scopes[sc].accounts[n];
            TooMany(if q.internal then a.nextInternal else a.nextExternal, q.num) ==>
              NextAddresses(c, m, db, sc, n, q, rand) == (m, db, Err(ErrTooManyAddresses))
  {
    hide MgrOK, BuildAll, StoreBatch, AccountOK, OpenKey, Indices, TooMany;
    var a := m.scopes[sc].accounts[n];
    CachedAccount(c, sec, m, sc, n);
    if TooMany(if q.internal then a.nextInternal else a.nextExternal, q.num) { TooManyIndices(c, m, a, q); }
  }

  predicate TooMany(next: uint32, num: uint32) { num > 0x7FFF_FFFF || (next + num) % 0x1_0000_0000 > 0x7FFF_FFFF }

  lemma TooManyIndices(c: Crypto, m: Mgr, a: Account, q: A.Ask)
    requires WorkingKey(m, a).Some? && TooMany(if q.internal then a.nextInternal else a.nextExternal, q.num)
    ensures Indices(c, m, a, q) == Err(ErrTooManyAddresses)
  {
    hide A.Choose, A.Chosen;
    A.ChooseExact(c, WorkingKey(m, a).value, CachedCounter(a, q), q, []);
  }

  lemma BatchIsBuilt(c: Crypto, sec: Secrets, m: Mgr, sc: KeyScope, n: uint32, q: A.Ask, s: seq<uint32>, rand: Prng)
    requires Lawful(c) && MgrOK(c, sec, m) && sc in m.scopes && n in m.scopes[sc].accounts
    requires KeyType(AddrType(m.scopes[sc].schema, A.Branch(q)))
    requires forall k :: 0 <= k < |s| ==> DerivedKey(c, m, sc, Path(n, A.Branch(q), s[k])).Ok?
    requires BuildAll(c, m, sc, m.scopes[sc].accounts[n], n, A.Branch(q), s, rand, 1).Ok?
    ensures var made := BuildAll(c, m, sc, m.scopes[sc].accounts[n], n, A.Branch(q), s, rand, 1).value;
            |made| == |s| && BatchBuilt(c, sec, m, sc, n, made) && BatchOK(c, sec, m, sc, n, A.Branch(q), s, made)
  {
    hide Lawful, MgrOK, BuildAll, AddrOK, DerivedKey;
    BuildAllOK(c, sec, m, sc, n, A.Branch(q), s, rand, 1);
    BuildAllKinds(c, m, sc, m.scopes[sc].accounts[n], n, A.Branch(q), s, rand, 1);
  }

  /** nextAddresses on a cached and stored account succeeds exactly when the chain parameters
      are set, at least one address is asked for, the indices can be chosen (the limit holds,
      the branch derives, enough children are valid), the branch's address type has an
      address, and the random reads of an unlocked manager succeed.  The read-back comparison
      is no further condition. */
  lemma NextAddressesExact(c: Crypto, sec: Secrets, m: Mgr, db: Db, sc: KeyScope, n: uint32, q: A.Ask, rand: Prng)
    requires Lawful(c) && MgrOK(c, sec, m) && DbOK(c, sec, db) && sc in m.scopes && n in m.scopes[sc].accounts
    requires sc in db && n in db[sc].table.rows
    ensures NextAddresses(c, m, db, sc, n, q, rand).2.Ok? <==>
            && m.net && q.num > 0 && (exists s :: ToHandOut(c, m, m.scopes[sc].accounts[n], q, s))
            && KeyType(if q.internal then m.scopes[sc].schema.internal else m.scopes[sc].schema.external)
            && (m.locked || BatchReads(rand, q.num))
  {
    hide Lawful, MgrOK, DbOK, Indices, BuildAll, CacheAll, CommitBatch, MoveRow, Refs, DerivedKey, ReadsFor, BatchOK,
      BatchBuilt, ToHandOut;
    var a := m.scopes[sc].accounts[n];
    IndicesExact(c, m, a, q);
    if Indices(c, m, a, q).Ok? && KeyType(AddrType(m.scopes[sc].schema, A.Branch(q))) {
      var s := Indices(c, m, a, q).value;
      IndicesDerive(c, m, sc, n, q);
      BuildAllExact(c, sec, m, sc, n, A.Branch(q), s, rand, 1);
      if BuildAll(c, m, sc, a, n, A.Branch(q), s, rand, 1).Ok? {
        var made := BuildAll(c, m, sc, a, n, A.Branch(q), s, rand, 1).value;
        BatchIsBuilt(c, sec, m, sc, n, q, s, rand);
        CacheAllExact(c, sec, m, db, sc, n, made, rand, 1 + |made|);
        CacheAllOK(c, sec, m, db, sc, n, made, rand, 1 + |made|)
          by { BatchPaths(c, sec, m, sc, n, A.Branch(q), s, made); }
      }
    }
  }
}
