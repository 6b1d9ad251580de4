/** The scopes a manager knows: their stored schemas, the loop that loads them, and the
    reverse maps from address type to the scopes that use it.
 */
module ScopeIndex {
  import opened ByteCodec
  import opened Errors
  import opened Primitives
  import opened AccountTable
  import opened Keyring
  import opened ScopeCreation

  /** scopeToBytes. */
  function ScopeKey(sc: KeyScope): (k: Bytes)
    ensures |k| == 8
  {
    Le32(sc.purpose) + Le32(sc.coin)
  }

  function ScopeOfKey(k: Bytes): KeyScope
    requires |k| == 8
  {
    KeyScope(UnLe32(k[..4]), UnLe32(k[4..]))
  }

  lemma ScopeKeyRoundTrip(sc: KeyScope)
    ensures ScopeOfKey(ScopeKey(sc)) == sc
  {
    hide Le32, UnLe;
    Seam(Le32(sc.purpose), Le32(sc.coin));
    Le32Injective(UnLe32(Le32(sc.purpose)), sc.purpose);
    Le32Injective(UnLe32(Le32(sc.coin)), sc.coin);
  }

  /** Distinct scopes live in distinct buckets. */
  lemma ScopeKeyInjective(a: KeyScope, b: KeyScope)
    ensures ScopeKey(a) == ScopeKey(b) <==> a == b
  {
    hide ScopeKey, ScopeOfKey;
    ScopeKeyRoundTrip(a);
    ScopeKeyRoundTrip(b);
  }

  lemma ScopeOfKeyRoundTrip(k: Bytes)
    requires |k| == 8
    ensures ScopeKey(ScopeOfKey(k)) == k
  {
    hide Le32, UnLe;
    assert k == k[..4] + k[4..];
  }

  /** scopeSchemaToBytes stores the internal type first. */
  function SchemaBytes(s: Schema): (b: Bytes)
    ensures |b| == 2
  {
    [s.internal, s.external]
  }

  /** scopeSchemaFromBytes. */
  function SchemaOfBytes(b: Bytes): (s: Schema)
    requires |b| >= 2
    ensures |b| == 2 ==> SchemaBytes(s) == b
  {
    Schema(b[1], b[0])
  }

  lemma SchemaRoundTrip(s: Schema)
    ensures SchemaOfBytes(SchemaBytes(s)) == s
  {
  }

  // ------------------------------------------------------------- reverse maps

  type Reverse = map<byte, seq<KeyScope>>

  function Append(r: Reverse, t: byte, sc: KeyScope): Reverse {
    r[t := (if t in r then r[t] else []) + [sc]]
  }

  function Count(r: Reverse, t: byte, sc: KeyScope): nat {
    if t in r then multiset(r[t])[sc] else 0
  }

  /** Each scope of `of` is listed exactly once, under the type `of` gives it. */
  ghost predicate Lists(r: Reverse, of: map<KeyScope, byte>) {
    forall t, sc :: Count(r, t, sc) == if sc in of && of[sc] == t then 1 else 0
  }

  lemma AppendLists(r: Reverse, of: map<KeyScope, byte>, sc: KeyScope, t: byte)
    requires Lists(r, of) && sc !in of
    ensures Lists(Append(r, t, sc), of[sc := t])
  {
    var r' := Append(r, t, sc);
    forall u, x ensures Count(r', u, x) == if x in of[sc := t] && of[sc := t][x] == u then 1 else 0 {
      assert Count(r, u, x) == if x in of && of[x] == u then 1 else 0;
      if u == t {
        var listed := if t in r then r[t] else [];
        assert multiset(listed + [sc]) == multiset(listed) + multiset{sc};
      }
    }
  }

  function Externals(m: map<KeyScope, Schema>): map<KeyScope, byte> { map sc | sc in m :: m[sc].external }
  function Internals(m: map<KeyScope, Schema>): map<KeyScope, byte> { map sc | sc in m :: m[sc].internal }

  /** The stored scopes: the names of the scope buckets and the schema bucket. */
  datatype Stored = Stored(buckets: set<Bytes>, schemas: map<Bytes, Bytes>)

  ghost predicate SchemasHold(schemas: map<Bytes, Bytes>, m: map<KeyScope, Schema>) {
    && (forall sc :: sc in m ==> ScopeKey(sc) in schemas && schemas[ScopeKey(sc)] == SchemaBytes(m[sc]))
    && (forall k :: k in schemas ==> |schemas[k]| == 2)
  }

  ghost predicate BucketsHold(buckets: set<Bytes>, m: map<KeyScope, Schema>) {
    && (forall sc :: sc in m ==> ScopeKey(sc) in buckets)
    && (forall k :: k in buckets ==> |k| == 8 && ScopeOfKey(k) in m)
  }

  /** The store holds exactly the scopes of m with their schemas. */
  ghost predicate Holds(st: Stored, m: map<KeyScope, Schema>) {
    SchemasHold(st.schemas, m) && BucketsHold(st.buckets, m)
  }

  lemma HoldsSchemas(st: Stored, m: map<KeyScope, Schema>)
    requires Holds(st, m)
    ensures st.buckets <= st.schemas.Keys
  {
    hide ScopeKey, ScopeOfKey, SchemaBytes;
    forall k | k in st.buckets ensures k in st.schemas { ScopeOfKeyRoundTrip(k); }
  }

  lemma HoldsMore(st: Stored, m: map<KeyScope, Schema>, sc: KeyScope, s: Schema)
    requires Holds(st, m)
    ensures Holds(Stored(st.buckets + {ScopeKey(sc)}, st.schemas[ScopeKey(sc) := SchemaBytes(s)]), m[sc := s])
  {
    hide ScopeKey, SchemasHold, BucketsHold;
    SchemasMore(st.schemas, m, sc, s);
    BucketsMore(st.buckets, m, sc, s);
  }

  lemma SchemasMore(schemas: map<Bytes, Bytes>, m: map<KeyScope, Schema>, sc: KeyScope, s: Schema)
    requires SchemasHold(schemas, m)
    ensures SchemasHold(schemas[ScopeKey(sc) := SchemaBytes(s)], m[sc := s])
  {
    hide ScopeKey, SchemaBytes;
    var after, m' := schemas[ScopeKey(sc) := SchemaBytes(s)], m[sc := s];
    forall t | t in m' ensures ScopeKey(t) in after && after[ScopeKey(t)] == SchemaBytes(m'[t]) {
      ScopeKeyInjective(t, sc);
    }
  }

  lemma BucketsMore(buckets: set<Bytes>, m: map<KeyScope, Schema>, sc: KeyScope, s: Schema)
    requires BucketsHold(buckets, m)
    ensures BucketsHold(buckets + {ScopeKey(sc)}, m[sc := s])
  {
    hide ScopeKey, ScopeOfKey;
    ScopeKeyRoundTrip(sc);
  }

  /** loadManager's forEachKeyScope loop. */
  method LoadScopes(st: Stored) returns (r: Outcome<map<KeyScope, Schema>>)
    ensures r.Err? ==> r.code == ErrScopeNotFound && exists k :: k in st.buckets && |k| == 8 && k !in st.schemas
    ensures r.Fault? ==> exists k :: k in st.schemas && |st.schemas[k]| < 2
    ensures r.Ok? ==> (forall k :: k in st.buckets && |k| == 8 ==>
              ScopeOfKey(k) in r.value && k in st.schemas && |st.schemas[k]| >= 2
              && r.value[ScopeOfKey(k)] == SchemaOfBytes(st.schemas[k]))
    ensures r.Ok? ==> (forall sc :: sc in r.value ==> ScopeKey(sc) in st.buckets)
  {
    hide ScopeKey, ScopeOfKey, SchemaBytes, SchemaOfBytes;
    var m: map<KeyScope, Schema> := map[];
    var todo := st.buckets;
    while todo != {}
      invariant todo <= st.buckets
      invariant forall k :: k in st.buckets && k !in todo && |k| == 8 ==>
                  ScopeOfKey(k) in m && k in st.schemas && |st.schemas[k]| >= 2
                    && m[ScopeOfKey(k)] == SchemaOfBytes(st.schemas[k])
      invariant forall sc :: sc in m ==> ScopeKey(sc) in st.buckets
      decreases |todo|
    {
      var k :| k in todo;
      todo := todo - {k};
      if |k| == 8 {
        var sc := ScopeOfKey(k);
        ScopeOfKeyRoundTrip(k);
        if ScopeKey(sc) !in st.schemas {
          return Err(ErrScopeNotFound);
        }
        if |st.schemas[ScopeKey(sc)]| < 2 {
          return Fault;
        }
        m := m[sc := SchemaOfBytes(st.schemas[ScopeKey(sc)])];
        forall j | j in st.buckets && j !in todo && |j| == 8
          ensures ScopeOfKey(j) in m && j in st.schemas && |st.schemas[j]| >= 2
          ensures m[ScopeOfKey(j)] == SchemaOfBytes(st.schemas[j])
        {
          ScopeOfKeyRoundTrip(j);
          if ScopeOfKey(j) == sc { assert j == k; }
        }
      }
    }
    r := Ok(m);
  }

  /** Reopening rebuilds the very map that was stored. */
  lemma ReopenRebuilds(st: Stored, m: map<KeyScope, Schema>, n: map<KeyScope, Schema>)
    requires Holds(st, m)
    requires forall k :: k in st.buckets && |k| == 8 ==>
               ScopeOfKey(k) in n && k in st.schemas && |st.schemas[k]| >= 2
                 && n[ScopeOfKey(k)] == SchemaOfBytes(st.schemas[k])
    requires forall sc :: sc in n ==> ScopeKey(sc) in st.buckets
    ensures n == m
  {
    hide ScopeKey, ScopeOfKey, SchemaBytes, SchemaOfBytes, Holds;
    forall sc | sc in m || sc in n ensures sc in m && sc in n && m[sc] == n[sc] {
      ScopeKeyRoundTrip(sc);
      HeldScope(st, m, sc);
      SchemaRoundTrip(m[sc]);
    }
  }

  lemma HeldScope(st: Stored, m: map<KeyScope, Schema>, sc: KeyScope)
    requires Holds(st, m)
    ensures sc in m <==> ScopeKey(sc) in st.buckets
    ensures sc in m ==> ScopeKey(sc) in st.schemas && st.schemas[ScopeKey(sc)] == SchemaBytes(m[sc])
  {
    hide ScopeKey, ScopeOfKey, SchemaBytes, SchemaOfBytes;
    ScopeKeyRoundTrip(sc);
  }

  class Directory {
    var managers: map<KeyScope, Schema>
    var external: Reverse
    var internal: Reverse
    var stored: Stored

    ghost predicate Valid()
      reads this
    {
      && Lists(external, Externals(managers)) && Lists(internal, Internals(managers))
      && Holds(stored, managers)
    }

    /** newManager's loop over the loaded scopes. */
    constructor (st: Stored, ms: map<KeyScope, Schema>)
      requires Holds(st, ms)
      ensures Valid() && managers == ms && stored == st
    {
      hide Holds, Lists, Append;
      var ext: Reverse, inn: Reverse := map[], map[];
      var todo := ms.Keys;
      ghost var done: map<KeyScope, Schema> := map[];
      EmptyLists();
      while todo != {}
        invariant todo <= ms.Keys && done == map sc | sc in ms && sc !in todo :: ms[sc]
        invariant Lists(ext, Externals(done)) && Lists(inn, Internals(done))
        decreases |todo|
      {
        var sc :| sc in todo;
        AppendLists(ext, Externals(done), sc, ms[sc].external);
        AppendLists(inn, Internals(done), sc, ms[sc].internal);
        ext := Append(ext, ms[sc].external, sc);
        inn := Append(inn, ms[sc].internal, sc);
        ghost var next := done[sc := ms[sc]];
        assert Externals(next) == Externals(done)[sc := ms[sc].external];
        assert Internals(next) == Internals(done)[sc := ms[sc].internal];
        done := next;
        todo := todo - {sc};
      }
      assert done == ms;
      managers, external, internal, stored := ms, ext, inn, st;
    }

    /** NewScopedKeyManager: the root key first, then the bucket, the schema and the keys.  An
        existing bucket, or a failure after the writes, rolls the transaction back. */
    method NewScopedKeyManager(c: Crypto, watchingOnly: bool, locked: bool, hdPriv: Option<Bytes>, ring: Ring,
                               sc: KeyScope, schema: Schema, rand: Prng)
      returns (r: Outcome<ScopeDb>)
      requires Valid()
      modifies this
      ensures Valid()
      ensures r.Ok? <==>
                && old(sc !in managers)
                && (watchingOnly ||
                    (&& !locked && hdPriv.Some? && OpenKey(c, ring.priv, hdPriv.value).Some?
                     && Derivable(c, OpenKey(c, ring.priv, hdPriv.value).value, sc) && FourNonces(rand, 0)))
      ensures r.Ok? ==>
                && ScopeRoot(c, watchingOnly, locked, hdPriv, ring).Ok?
                && r == FurtherScope(c, ring, ScopeRoot(c, watchingOnly, locked, hdPriv, ring).value, sc, rand)
      ensures !watchingOnly && locked ==> r == Err(ErrLocked)
      ensures watchingOnly && r.Ok? ==> r.value == ScopeDb(None, None, Table(map[], map[], map[], None))
      ensures managers == if r.Ok? then old(managers)[sc := schema] else old(managers)
      ensures !r.Ok? ==> unchanged(this)
    {
      hide Lists, Holds, CreateScope, Derivable, FourNonces, OpenKey;
      var saved := stored;
      ScopeKnown(stored, managers, sc);
      var root := ScopeRoot(c, watchingOnly, locked, hdPriv, ring);
      if !root.Ok? { return root.PropagateFailure(); }
      if ScopeKey(sc) in stored.buckets {
        return Err(ErrDatabase);
      }
      stored := Stored(stored.buckets + {ScopeKey(sc)}, stored.schemas[ScopeKey(sc) := SchemaBytes(schema)]);
      r := FurtherScope(c, ring, root.value, sc, rand);
      if root.value.Some? { CreateScopeExact(c, ring, root.value.value, sc, None, rand, 0); }
      if !r.Ok? {
        stored := saved;
        return;
      }
      HoldsMore(saved, managers, sc, schema);
      Register(sc, schema);
    }

    /** The new manager in the map of managers and in both reverse maps. */
    method Register(sc: KeyScope, schema: Schema)
      requires sc !in managers && Lists(external, Externals(managers)) && Lists(internal, Internals(managers))
      requires Holds(stored, managers[sc := schema])
      modifies this`managers, this`external, this`internal
      ensures Valid() && managers == old(managers)[sc := schema]
    {
      hide Lists, Holds;
      AppendLists(external, Externals(managers), sc, schema.external);
      AppendLists(internal, Internals(managers), sc, schema.internal);
      managers := managers[sc := schema];
      external := Append(external, schema.external, sc);
      internal := Append(internal, schema.internal, sc);
      assert Externals(managers) == Externals(old(managers))[sc := schema.external];
      assert Internals(managers) == Internals(old(managers))[sc := schema.internal];
    }

    /** Closing and reopening gives the same scopes and schemas. */
    method Reopen() returns (d: Directory)
      requires Valid()
      ensures fresh(d) && d.Valid() && d.managers == managers
    {
      hide Lists, ScopeKey, ScopeOfKey, SchemaBytes;
      HoldsSchemas(stored, managers);
      var ms := LoadScopes(stored);
      ReopenRebuilds(stored, managers, ms.value);
      d := new Directory(stored, ms.value);
    }
  }

  lemma ScopeKnown(st: Stored, m: map<KeyScope, Schema>, sc: KeyScope)
    requires Holds(st, m)
    ensures ScopeKey(sc) in st.buckets <==> sc in m
  {
    hide ScopeKey, ScopeOfKey, SchemaBytes;
    ScopeKeyRoundTrip(sc);
  }

  lemma EmptyLists()
    ensures Lists(map[], Externals(map[])) && Lists(map[], Internals(map[]))
  {
  }
}
