/** The accounts of one key scope, as a table: rows, the id-to-name and name-to-id
    indexes and the last-account counter.  Creating an account derives the hardened
    child of the scope's coin-type key and seals both halves of it into the row.
 */
module AccountTable {
  import opened ByteCodec
  import opened Errors
  import opened Primitives
  import opened Snacl
  import opened AccountRow

  const MAX_ACCOUNT: uint32 := 0x7FFF_FFFE
  const IMPORTED: uint32 := 0x7FFF_FFFF
  const DEFAULT_ACCOUNT: uint32 := 0

  /** "default", "imported" and "act:" as bytes. */
  const DEFAULT_NAME: Bytes := [100, 101, 102, 97, 117, 108, 116]
  const IMPORTED_NAME: Bytes := [105, 109, 112, 111, 114, 116, 101, 100]
  const RAW_PREFIX: Bytes := [97, 99, 116, 58]

  /** bbolt's limits on keys and values. */
  const MAX_KEY: nat := 32768
  const MAX_VALUE: nat := 0x7FFF_FFFE

  datatype Table = Table(
    rows: map<uint32, AcctRow>,
    names: map<uint32, Bytes>,
    ids: map<Bytes, uint32>,
    last: Option<uint32>)

  /** A scope's sealed coin-type keys and its account table. */
  datatype ScopeDb = ScopeDb(coinPub: Option<Bytes>, coinPriv: Option<Bytes>, table: Table)

  /** The manager's crypto keys as they stand in memory. */
  datatype Ring = Ring(pub: Bytes, priv: Bytes)

  /** The random source: the bytes that are there for the i-th read.  A read succeeds when
      there are at least 32 and takes what it needs of them. */
  type Prng = nat -> Option<Bytes>

  function ReadRandom(rand: Prng, i: nat, n: nat): (r: Option<Bytes>)
    requires n <= 32
    ensures r.Some? ==> |r.value| == n
  {
    if rand(i).Some? && |rand(i).value| >= 32 then Some(rand(i).value[..n]) else None
  }

  function Nonce(rand: Prng, i: nat): (r: Option<Bytes>)
    ensures r.Some? ==> |r.value| == NONCE_SIZE
  {
    ReadRandom(rand, i, NONCE_SIZE)
  }

  /** CryptoKey.Encrypt: fails only when the random source does. */
  function SealWith(c: Crypto, key: Bytes, msg: Bytes, rand: Prng, i: nat): (r: Outcome<Bytes>)
    ensures Lawful(c) && r.Ok? ==> Decrypt(c, key, r.value) == Some(msg)
    ensures r.Ok? ==> |r.value| >= NONCE_SIZE
    ensures r.Ok? <==> Nonce(rand, i).Some?
  {
    match Nonce(rand, i)
    case None => Err(ErrCrypto)
    case Some(nonce) =>
      assert Lawful(c) ==> Decrypt(c, key, Encrypt(c, key, nonce, msg)) == Some(msg) by {
        if Lawful(c) { DecryptUndoesEncrypt(c, key, nonce, msg); }
      }
      Ok(Encrypt(c, key, nonce, msg))
  }

  function OpenKey(c: Crypto, key: Bytes, blob: Bytes): (r: Option<ExtKey>) {
    match Decrypt(c, key, blob)
    case None => None
    case Some(txt) => c.parse(txt)
  }

  // ----------------------------------------------------------------- numbering

  /** fetchLastAccount: an absent counter reads as 2^32 - 1. */
  function LastAccount(t: Table): uint32 {
    if t.last.Some? then t.last.value else W32 - 1
  }

  function Decimal(n: nat): (b: Bytes)
    ensures |b| > 0
  {
    if n < 10 then [48 + n] else Decimal(n / 10) + [48 + n % 10]
  }

  function FromDecimal(b: Bytes): int {
    if b == [] then 0 else 10 * FromDecimal(b[..|b| - 1]) + b[|b| - 1] - 48
  }

  lemma {:induction false} DecimalRoundTrip(n: nat)
    ensures FromDecimal(Decimal(n)) == n
  {
    var b := Decimal(n);
    if n >= 10 {
      DecimalRoundTrip(n / 10);
      assert b[..|b| - 1] == Decimal(n / 10);
    } else {
      assert b[..|b| - 1] == [];
    }
  }

  /** fmt.Sprintf("act:%v", number). */
  function RawName(n: uint32): Bytes {
    RAW_PREFIX + Decimal(n)
  }

  lemma RawNamesDistinct(m: uint32, n: uint32)
    ensures RawName(m) == RawName(n) <==> m == n
    ensures RawName(m) != [] && RawName(m) != IMPORTED_NAME && RawName(m) != DEFAULT_NAME
  {
    DecimalRoundTrip(m);
    DecimalRoundTrip(n);
    Seam(RAW_PREFIX, Decimal(m));
    Seam(RAW_PREFIX, Decimal(n));
    assert RawName(m)[0] == 97;
  }

  // ------------------------------------------------------------ key derivation

  function DeriveAccountKey(c: Crypto, coin: ExtKey, account: uint32): (r: Outcome<ExtKey>)
    ensures r.Ok? ==> account <= MAX_ACCOUNT
  {
    if account > MAX_ACCOUNT then Err(ErrAccountNumTooHigh)
    else match c.child(coin, Add32(account, HARDENED))
      case Child(k) => Ok(k)
      case _ => Err(ErrKeyChain)
  }

  /** Exactly the accounts up to 2^31 - 2 with a hardened child have a key, and their hardened
      offset never wraps. */
  lemma HardenedOffset(c: Crypto, coin: ExtKey, account: uint32)
    ensures account > 0x7FFF_FFFE ==> DeriveAccountKey(c, coin, account) == Err(ErrAccountNumTooHigh)
    ensures forall k :: DeriveAccountKey(c, coin, account) == Ok(k) <==>
              account <= 0x7FFF_FFFE && c.child(coin, account + 0x8000_0000) == Child(k)
  {
  }

  /** Neuter a private key and seal both halves: the common tail of account creation. */
  function SealRow(c: Crypto, ring: Ring, key: ExtKey, name: Bytes, rand: Prng, i: nat): (r: Outcome<AcctRow>) {
    match c.neuter(key)
    case None => Err(ErrKeyChain)
    case Some(pub) =>
      var pubEnc :- SealWith(c, ring.pub, c.text(pub), rand, i);
      var privEnc :- SealWith(c, ring.priv, c.text(key), rand, i + 1);
      Ok(AcctRow(pubEnc, privEnc, 0, 0, name))
  }

  /** The row newAccount would write: everything between the name checks and the puts. */
  function AccountRowFor(c: Crypto, ring: Ring, coinPub: Option<Bytes>, coinPriv: Option<Bytes>, account: uint32,
                         name: Bytes, rand: Prng): (r: Outcome<AcctRow>) {
    if coinPub == None || coinPriv == None then Err(ErrDatabase)
    else match Decrypt(c, ring.priv, coinPriv.value)
      case None => Err(ErrLocked)
      case Some(txt) =>
        match c.parse(txt)
        case None => Err(ErrKeyChain)
        case Some(coin) =>
          match DeriveAccountKey(c, coin, account)
          case Ok(key) => SealRow(c, ring, key, name, rand, 0)
          case _ => Err(ErrKeyChain)
  }

  // -------------------------------------------------------------- account rows

  function ValidateAccountName(name: Bytes): (r: Outcome<()>)
    ensures r.Ok? <==> name != [] && name != IMPORTED_NAME
  {
    if name == [] || name == IMPORTED_NAME then Err(ErrInvalidAccount) else Ok(())
  }

  /** The three writes of putAccountInfo. */
  function PutAccountInfo(t: Table, account: uint32, row: AcctRow): Table {
    t.(rows := t.rows[account := row], names := t.names[account := row.name], ids := t.ids[row.name := account])
  }

  /** The writes go through: value and name-index key respect bbolt's limits. */
  predicate Storable(row: AcctRow) {
    && 25 + |row.pubEnc| + |row.privEnc| + |row.name| <= MAX_VALUE
    && 4 + |row.name| <= MAX_KEY
  }

  lemma StorableRowEncodes(row: AcctRow)
    requires Storable(row)
    ensures Fits(row) && StoredRow(row) == Ok(EncodeEnvelope(Envelope(ACCOUNT_DEFAULT, DefaultBytes(row))))
    ensures LoadRow(StoredRow(row).value) == Ok(row)
  {
    hide DefaultBytes, DecodeDefault, EncodeEnvelope, DecodeEnvelope, EncodeDefault;
    EncodeDefaultFits(row);
    StoredRowRoundTrip(row);
  }

  /** A sealed extended key: nonce, 16 bytes of overhead and at most 128 characters. */
  predicate SealedShort(row: AcctRow) {
    |row.pubEnc| <= 168 && |row.privEnc| <= 168
  }

  lemma AccountRowShort(c: Crypto, ring: Ring, coinPub: Option<Bytes>, coinPriv: Option<Bytes>, n: uint32, x: Bytes,
                        rand: Prng)
    requires Lawful(c) && AccountRowFor(c, ring, coinPub, coinPriv, n, x, rand).Ok?
    ensures SealedShort(AccountRowFor(c, ring, coinPub, coinPriv, n, x, rand).value)
  {
    hide HashLaws, ChildLaws, DeriveAccountKey;
  }

  /** Sealed extended keys are short, so only an overlong name makes a row unstorable. */
  lemma StorableExact(c: Crypto, ring: Ring, key: ExtKey, name: Bytes, rand: Prng, i: nat)
    requires Lawful(c) && SealRow(c, ring, key, name, rand, i).Ok?
    ensures Storable(SealRow(c, ring, key, name, rand, i).value) <==> |name| <= 32764
  {
    hide HashLaws, ChildLaws;
  }

  /** newAccount, inside a transaction that is rolled back on every failure. */
  function NewAccountAt(c: Crypto, ring: Ring, db: ScopeDb, account: uint32, name: Bytes,
                        rand: Prng): (r: Outcome<Table>) {
    var _ :- ValidateAccountName(name);
    if name in db.table.ids then Err(ErrDuplicateAccount) else
    var row :- AccountRowFor(c, ring, db.coinPub, db.coinPriv, account, name, rand);
    if StoredRow(row).Fault? then Fault
    else if !Storable(row) then Err(ErrDatabase)
    else Ok(PutAccountInfo(db.table, account, row).(last := Some(account)))
  }

  datatype Request = New(name: Bytes, rand: Prng) | Raw(number: uint32, rand: Prng)

  function Number(t: Table, q: Request): uint32 {
    if q.New? then Add32(LastAccount(t), 1) else q.number
  }

  function Name(q: Request): Bytes {
    if q.New? then q.name else RawName(q.number)
  }

  /** NewAccount or NewRawAccount as one committed or rolled-back transaction. */
  function Serve(c: Crypto, ring: Ring, db: ScopeDb, q: Request): Outcome<Table> {
    NewAccountAt(c, ring, db, Number(db.table, q), Name(q), q.rand)
  }

  function After(c: Crypto, ring: Ring, db: ScopeDb, q: Request): ScopeDb {
    match Serve(c, ring, db, q)
    case Ok(t) => db.(table := t)
    case _ => db
  }

  function Run(c: Crypto, ring: Ring, db: ScopeDb, qs: seq<Request>): ScopeDb
    decreases |qs|
  {
    if qs == [] then db else Run(c, ring, After(c, ring, db, qs[0]), qs[1..])
  }

  /** The numbers handed out by the successful requests of a run, in order. */
  function Handed(c: Crypto, ring: Ring, db: ScopeDb, qs: seq<Request>): seq<uint32>
    decreases |qs|
  {
    if qs == [] then []
    else
      var rest := Handed(c, ring, After(c, ring, db, qs[0]), qs[1..]);
      if Serve(c, ring, db, qs[0]).Ok? then [Number(db.table, qs[0])] + rest else rest
  }

  // ---------------------------------------------------------------- invariants

  /** What every run keeps, overwritten numbers included. */
  ghost predicate Consistent(t: Table) {
    && t.rows.Keys == t.names.Keys
    && (forall n :: n in t.rows ==> t.rows[n].name == t.names[n])
    && (forall n :: n in t.names ==> t.names[n] in t.ids && t.ids[t.names[n]] == n)
    && (forall x :: x in t.ids ==> t.ids[x] in t.names)
    && IMPORTED_NAME in t.ids && t.ids[IMPORTED_NAME] == IMPORTED
    && IMPORTED in t.names && t.names[IMPORTED] == IMPORTED_NAME
  }

  /** The two indexes are inverse maps. */
  ghost predicate Inverse(t: Table) {
    && (forall n :: n in t.names ==> t.names[n] in t.ids && t.ids[t.names[n]] == n)
    && (forall x :: x in t.ids ==> t.ids[x] in t.names && t.names[t.ids[x]] == x)
  }

  /** No two accounts share a name, whatever was overwritten. */
  lemma NamesUnique(t: Table, m: uint32, n: uint32)
    requires Consistent(t) && m in t.names && n in t.names && t.names[m] == t.names[n]
    ensures m == n
  {
    assert t.ids[t.names[m]] == m;
  }

  predicate Grows(older: map<Bytes, uint32>, newer: map<Bytes, uint32>) {
    forall x :: x in older ==> x in newer && newer[x] == older[x]
  }

  lemma SealedRowShape(c: Crypto, ring: Ring, db: ScopeDb, n: uint32, x: Bytes, rand: Prng)
    requires AccountRowFor(c, ring, db.coinPub, db.coinPriv, n, x, rand).Ok?
    ensures n <= MAX_ACCOUNT
    ensures AccountRowFor(c, ring, db.coinPub, db.coinPriv, n, x, rand).value.name == x
  {
  }

  /** What a successful request did to the table. */
  lemma ServedTable(c: Crypto, ring: Ring, db: ScopeDb, q: Request)
    requires Serve(c, ring, db, q).Ok?
    ensures var t, n, x := Serve(c, ring, db, q).value, Number(db.table, q), Name(q);
            && n <= MAX_ACCOUNT && x !in db.table.ids && x != [] && x != IMPORTED_NAME
            && n in t.rows && t.rows[n].name == x
            && t == PutAccountInfo(db.table, n, t.rows[n]).(last := Some(n))
            && AccountRowFor(c, ring, db.coinPub, db.coinPriv, n, x, q.rand) == Ok(t.rows[n])
            && Storable(t.rows[n])
  {
    hide AccountRowFor, Storable, StoredRow, Number, Name;
    SealedRowShape(c, ring, db, Number(db.table, q), Name(q), q.rand);
  }

  lemma StepConsistent(c: Crypto, ring: Ring, db: ScopeDb, q: Request)
    requires Consistent(db.table)
    ensures Consistent(After(c, ring, db, q).table)
    ensures Grows(db.table.ids, After(c, ring, db, q).table.ids)
    ensures db.table.rows.Keys <= After(c, ring, db, q).table.rows.Keys
  {
    hide Serve, Number, Name, AccountRowFor, Storable;
    if Serve(c, ring, db, q).Ok? {
      ServedTable(c, ring, db, q);
    }
  }

  /** Every run keeps the table consistent, its name index only grows, and the
      reserved name never moves. */
  lemma {:induction false} RunConsistent(c: Crypto, ring: Ring, db: ScopeDb, qs: seq<Request>)
    requires Consistent(db.table)
    ensures Consistent(Run(c, ring, db, qs).table)
    ensures Grows(db.table.ids, Run(c, ring, db, qs).table.ids)
    ensures Run(c, ring, db, qs).table.ids[IMPORTED_NAME] == IMPORTED
    decreases |qs|
  {
    hide After;
    if qs != [] {
      StepConsistent(c, ring, db, qs[0]);
      RunConsistent(c, ring, After(c, ring, db, qs[0]), qs[1..]);
    }
  }

  /** Creation keeps the indexes inverse exactly when the number was not in use. */
  lemma StepInverseExact(c: Crypto, ring: Ring, db: ScopeDb, q: Request)
    requires Consistent(db.table) && Inverse(db.table) && Serve(c, ring, db, q).Ok?
    ensures Inverse(After(c, ring, db, q).table) <==> Number(db.table, q) !in db.table.rows
  {
    hide Serve, Number, Name, AccountRowFor, Storable;
    ServedTable(c, ring, db, q);
    var n, t := Number(db.table, q), Serve(c, ring, db, q).value;
    if n in db.table.rows {
      assert db.table.names[n] in t.ids && t.ids[db.table.names[n]] == n;
      assert t.names[n] != db.table.names[n];
    }
  }

  /** A stale name never becomes right again. */
  lemma BrokenStaysBroken(c: Crypto, ring: Ring, db: ScopeDb, q: Request)
    requires Consistent(db.table) && !Inverse(db.table)
    ensures !Inverse(After(c, ring, db, q).table)
  {
    hide Serve, Number, Name, AccountRowFor, Storable;
    var x :| x in db.table.ids && db.table.names[db.table.ids[x]] != x;
    if Serve(c, ring, db, q).Ok? {
      ServedTable(c, ring, db, q);
      var t := Serve(c, ring, db, q).value;
      assert x in t.ids && t.ids[x] == db.table.ids[x];
    }
  }

  predicate AllFresh(used: set<uint32>, ns: seq<uint32>)
    decreases |ns|
  {
    ns == [] || (ns[0] !in used && AllFresh(used + {ns[0]}, ns[1..]))
  }

  lemma StepRows(c: Crypto, ring: Ring, db: ScopeDb, q: Request)
    ensures After(c, ring, db, q).table.rows.Keys ==
            if Serve(c, ring, db, q).Ok? then db.table.rows.Keys + {Number(db.table, q)} else db.table.rows.Keys
  {
    hide Serve, Number, Name, AccountRowFor, Storable;
    if Serve(c, ring, db, q).Ok? {
      ServedTable(c, ring, db, q);
    }
  }

  lemma {:induction false} BrokenForever(c: Crypto, ring: Ring, db: ScopeDb, qs: seq<Request>)
    requires Consistent(db.table) && !Inverse(db.table)
    ensures !Inverse(Run(c, ring, db, qs).table)
    decreases |qs|
  {
    hide After, Inverse, Consistent;
    if qs != [] {
      BrokenStaysBroken(c, ring, db, qs[0]);
      StepConsistent(c, ring, db, qs[0]);
      BrokenForever(c, ring, After(c, ring, db, qs[0]), qs[1..]);
    }
  }

  /** After any run of NewAccount and NewRawAccount the two indexes are inverse exactly
      when no number was handed out twice (counting those the table started with). */
  lemma {:induction false} RunInverseExact(c: Crypto, ring: Ring, db: ScopeDb, qs: seq<Request>)
    requires Consistent(db.table) && Inverse(db.table)
    ensures Inverse(Run(c, ring, db, qs).table) <==> AllFresh(db.table.rows.Keys, Handed(c, ring, db, qs))
    decreases |qs|
  {
    hide Serve, Number, Inverse, Consistent;
    if qs != [] {
      var q, next := qs[0], After(c, ring, db, qs[0]);
      StepConsistent(c, ring, db, q);
      StepRows(c, ring, db, q);
      if Serve(c, ring, db, q).Ok? {
        StepInverseExact(c, ring, db, q);
        var rest := Handed(c, ring, next, qs[1..]);
        assert ([Number(db.table, q)] + rest)[1..] == rest;
        if Inverse(next.table) {
          RunInverseExact(c, ring, next, qs[1..]);
        } else {
          BrokenForever(c, ring, next, qs[1..]);
        }
      } else {
        RunInverseExact(c, ring, db, qs[1..]);
      }
    }
  }

  // ------------------------------------------------- when numbers stay unique

  /** The counter bounds every account in use (the imported account aside). */
  ghost predicate Bounded(t: Table) {
    && t.last.Some?
    && t.last.value <= MAX_ACCOUNT
    && forall n :: n in t.rows ==> n == IMPORTED || n <= t.last.value
  }

  /** The caller's side of the bargain: raw numbers exceed the last account. */
  predicate RawsAbove(c: Crypto, ring: Ring, db: ScopeDb, qs: seq<Request>)
    decreases |qs|
  {
    qs != [] ==>
      && (qs[0].Raw? ==> qs[0].number > LastAccount(db.table))
      && RawsAbove(c, ring, After(c, ring, db, qs[0]), qs[1..])
  }

  ghost predicate Increasing(from: int, ns: seq<uint32>) {
    && (forall i :: 0 <= i < |ns| ==> ns[i] > from)
    && (forall i, j :: 0 <= i < j < |ns| ==> ns[i] < ns[j])
  }

  lemma StepBounded(c: Crypto, ring: Ring, db: ScopeDb, q: Request)
    requires Bounded(db.table) && (q.Raw? ==> q.number > LastAccount(db.table))
    ensures Bounded(After(c, ring, db, q).table)
    ensures Serve(c, ring, db, q).Ok? ==>
              && Number(db.table, q) > db.table.last.value
              && After(c, ring, db, q).table.last == Some(Number(db.table, q))
              && Number(db.table, q) !in db.table.rows
    ensures !Serve(c, ring, db, q).Ok? ==> After(c, ring, db, q) == db
  {
    hide Serve, Name, AccountRowFor, Storable;
    if Serve(c, ring, db, q).Ok? {
      ServedTable(c, ring, db, q);
    }
  }

  lemma {:induction false} IncreasingIsFresh(used: set<uint32>, from: int, ns: seq<uint32>)
    requires forall n :: n in used ==> n <= from || n > MAX_ACCOUNT
    requires Increasing(from, ns) && forall i :: 0 <= i < |ns| ==> ns[i] <= MAX_ACCOUNT
    ensures AllFresh(used, ns)
    decreases |ns|
  {
    if ns != [] {
      IncreasingIsFresh(used + {ns[0]}, ns[0], ns[1..]);
    }
  }

  /** With a recorded counter and raw numbers above it, numbers strictly increase: none
      is handed out twice, and (RunInverseExact) the indexes stay inverse. */
  lemma {:induction false} GuardedRunIncreases(c: Crypto, ring: Ring, db: ScopeDb, qs: seq<Request>)
    requires Bounded(db.table) && RawsAbove(c, ring, db, qs)
    ensures Increasing(db.table.last.value, Handed(c, ring, db, qs))
    ensures forall i :: 0 <= i < |Handed(c, ring, db, qs)| ==> Handed(c, ring, db, qs)[i] <= MAX_ACCOUNT
    ensures Bounded(Run(c, ring, db, qs).table)
    ensures AllFresh(db.table.rows.Keys, Handed(c, ring, db, qs))
    decreases |qs|
  {
    hide Serve, Number, After;
    if qs != [] {
      StepBounded(c, ring, db, qs[0]);
      GuardedRunIncreases(c, ring, After(c, ring, db, qs[0]), qs[1..]);
    }
    IncreasingIsFresh(db.table.rows.Keys, db.table.last.value, Handed(c, ring, db, qs));
  }

  lemma GuardedRunKeepsInverse(c: Crypto, ring: Ring, db: ScopeDb, qs: seq<Request>)
    requires Consistent(db.table) && Inverse(db.table) && Bounded(db.table) && RawsAbove(c, ring, db, qs)
    ensures Inverse(Run(c, ring, db, qs).table)
  {
    hide *;
    GuardedRunIncreases(c, ring, db, qs);
    RunInverseExact(c, ring, db, qs);
  }

  /** NewAccount alone numbers consecutively, whatever fails in between... */
  lemma {:induction false} NewAccountsConsecutive(c: Crypto, ring: Ring, db: ScopeDb, qs: seq<Request>)
    requires db.table.last.Some? && db.table.last.value <= MAX_ACCOUNT
    requires forall i :: 0 <= i < |qs| ==> qs[i].New?
    ensures var h := Handed(c, ring, db, qs);
            && db.table.last.value + |h| <= MAX_ACCOUNT
            && (forall i :: 0 <= i < |h| ==> h[i] == db.table.last.value + 1 + i)
            && Run(c, ring, db, qs).table.last == Some(db.table.last.value + |h|)
    decreases |qs|
  {
    hide Serve, AccountRowFor, Storable;
    if qs != [] {
      var q := qs[0];
      if Serve(c, ring, db, q).Ok? {
        ServedTable(c, ring, db, q);
      }
      NewAccountsConsecutive(c, ring, After(c, ring, db, q), qs[1..]);
    }
  }

  /** ... and after MaxAccountNum it fails and changes nothing. */
  lemma NewAccountStopsAtMax(c: Crypto, ring: Ring, db: ScopeDb, name: Bytes, rand: Prng)
    requires db.table.last == Some(MAX_ACCOUNT)
    ensures !Serve(c, ring, db, New(name, rand)).Ok?
    ensures After(c, ring, db, New(name, rand)) == db
  {
    if Serve(c, ring, db, New(name, rand)).Ok? {
      ServedTable(c, ring, db, New(name, rand));
    }
  }

  /** Without a recorded counter (NewScopedKeyManager writes none) the sentinel wraps:
      NewAccount always means account 0, and it is a duplicate exactly when 0 has a row. */
  lemma MissingCounterMeansZero(c: Crypto, ring: Ring, db: ScopeDb, name: Bytes, rand: Prng)
    requires db.table.last == None
    ensures Number(db.table, New(name, rand)) == 0
    ensures Consistent(db.table) && Inverse(db.table) && Serve(c, ring, db, New(name, rand)).Ok? ==>
              (Inverse(After(c, ring, db, New(name, rand)).table) <==> 0 !in db.table.rows)
  {
    hide Serve, Inverse, Consistent, After;
    if Consistent(db.table) && Inverse(db.table) && Serve(c, ring, db, New(name, rand)).Ok? {
      StepInverseExact(c, ring, db, New(name, rand));
    }
  }

  // -------------------------------------------------------- what a row contains

  /** The row's private half opens to `key` and its public half to that key neutered. */
  ghost predicate RowHolds(c: Crypto, ring: Ring, row: AcctRow, key: ExtKey) {
    && OpenKey(c, ring.priv, row.privEnc) == Some(key)
    && c.neuter(key).Some?
    && OpenKey(c, ring.pub, row.pubEnc) == Some(c.neuter(key).value)
  }

  lemma SealRowHolds(c: Crypto, ring: Ring, key: ExtKey, name: Bytes, rand: Prng, i: nat)
    requires Lawful(c) && SealRow(c, ring, key, name, rand, i).Ok?
    ensures var row := SealRow(c, ring, key, name, rand, i).value;
            RowHolds(c, ring, row, key) && row.name == name && row.nextExternal == 0 && row.nextInternal == 0
  {
    hide Decrypt, HashLaws, BoxLaws, ChildLaws, Nonce;
  }

  /** A created account's row holds the hardened child `account` of the coin-type key. */
  lemma NewRowHolds(c: Crypto, ring: Ring, db: ScopeDb, n: uint32, x: Bytes, rand: Prng)
    requires Lawful(c) && AccountRowFor(c, ring, db.coinPub, db.coinPriv, n, x, rand).Ok?
    ensures var coin := OpenKey(c, ring.priv, db.coinPriv.value);
            && coin.Some? && DeriveAccountKey(c, coin.value, n).Ok?
            && RowHolds(c, ring, AccountRowFor(c, ring, db.coinPub, db.coinPriv, n, x, rand).value,
                        DeriveAccountKey(c, coin.value, n).value)
  {
    hide Decrypt, HashLaws, BoxLaws, ChildLaws, KeyLaws, DeriveAccountKey, SealRow, RowHolds;
    var key := DeriveAccountKey(c, OpenKey(c, ring.priv, db.coinPriv.value).value, n).value;
    SealRowHolds(c, ring, key, x, rand, 0);
  }

  // ------------------------------------------------------------ a concrete run

  function Steady(): Prng { (i: nat) => Some(Zeros(32)) }

  function ToyBlob(): Bytes { Encrypt(Toy(), [], Zeros(NONCE_SIZE), Toy().text(ExtKey(true, 0))) }

  /** The scope as createManagerKeyScope leaves it, over the toy primitives. */
  function ToyScope(): ScopeDb {
    ScopeDb(Some([]), Some(ToyBlob()),
      Table(map[0 := AcctRow([], [], 0, 0, DEFAULT_NAME), IMPORTED := AcctRow([], [], 0, 0, IMPORTED_NAME)],
            map[0 := DEFAULT_NAME, IMPORTED := IMPORTED_NAME],
            map[DEFAULT_NAME := 0, IMPORTED_NAME := IMPORTED],
            Some(0)))
  }

  lemma ToyServes(db: ScopeDb, q: Request)
    requires db.coinPub == ToyScope().coinPub && db.coinPriv == ToyScope().coinPriv
    requires q.rand == Steady() && Number(db.table, q) <= MAX_ACCOUNT
    requires 0 < |Name(q)| < 100 && Name(q) != IMPORTED_NAME && Name(q) !in db.table.ids
    ensures Serve(Toy(), Ring([], []), db, q).Ok?
  {
    hide Number, Name, Toy, Lawful, SealRow, Storable, StoredRow, Decrypt, Encrypt, DeriveAccountKey;
    var c, n, coin := Toy(), Number(db.table, q), ExtKey(true, 0);
    assert OpenKey(c, [], ToyBlob()) == Some(coin) && DeriveAccountKey(c, coin, n) == Ok(coin) by { ToyKeys(n); }
    ToySealed(coin, Name(q), q.rand);
  }

  lemma ToyKeys(n: uint32)
    requires n <= MAX_ACCOUNT
    ensures OpenKey(Toy(), [], ToyBlob()) == Some(ExtKey(true, 0))
    ensures DeriveAccountKey(Toy(), ExtKey(true, 0), n) == Ok(ExtKey(true, 0))
  {
    hide HashLaws, BoxLaws, ChildLaws, Decrypt, Encrypt, ToyText, ToyParse;
    LawfulIsSatisfiable();
    DecryptUndoesEncrypt(Toy(), [], Zeros(NONCE_SIZE), Toy().text(ExtKey(true, 0)));
  }

  lemma ToySealed(key: ExtKey, name: Bytes, rand: Prng)
    requires rand == Steady() && |name| < 100
    ensures var row := SealRow(Toy(), Ring([], []), key, name, rand, 0);
            row.Ok? && Storable(row.value) && StoredRow(row.value).Ok?
  {
    hide Lawful, Storable, StoredRow, ToyText, ToyParse, Encrypt, Decrypt;
    LawfulIsSatisfiable();
    assert Nonce(rand, 0).Some? && Nonce(rand, 1).Some?;
    StorableExact(Toy(), Ring([], []), key, name, rand, 0);
    StorableRowEncodes(SealRow(Toy(), Ring([], []), key, name, rand, 0).value);
  }

  function UnguardedRun(): seq<Request> {
    [Raw(5, Steady()), Raw(3, Steady()), New([97], Steady()), New([98], Steady())]
  }

  /** Dropping the guard: account 5, then account 3, then two NewAccount calls hand out
      5 a second time, and the two indexes are no longer inverse. */
  lemma UnguardedRunRepeatsANumber()
    ensures Consistent(ToyScope().table) && Inverse(ToyScope().table) && Bounded(ToyScope().table)
    ensures Handed(Toy(), Ring([], []), ToyScope(), UnguardedRun()) == [5, 3, 4, 5]
    ensures !Inverse(Run(Toy(), Ring([], []), ToyScope(), UnguardedRun()).table)
  {
    hide Handed, Run, Toy, UnguardedRun, AllFresh;
    UnguardedNumbers();
    RunInverseExact(Toy(), Ring([], []), ToyScope(), UnguardedRun());
    NotFresh(ToyScope().table.rows.Keys);
  }

  lemma UnguardedNumbers()
    ensures Handed(Toy(), Ring([], []), ToyScope(), UnguardedRun()) == [5, 3, 4, 5]
  {
    hide Serve, After, Toy, Decimal, Handed;
    var c, ring, db0 := Toy(), Ring([], []), ToyScope();
    var q0, q1, q2, q3 := Raw(5, Steady()), Raw(3, Steady()), New([97], Steady()), New([98], Steady());
    ShortNames();
    var db1 := ToyStep(db0, q0);
    var db2 := ToyStep(db1, q1);
    var db3 := ToyStep(db2, q2);
    var db4 := ToyStep(db3, q3);
    HandedTwo(c, ring, db2, q2, q3);
    HandedCons(c, ring, db1, q1, [q2, q3]);
    HandedCons(c, ring, db0, q0, [q1, q2, q3]);
    assert [q1] + [q2, q3] == [q1, q2, q3] && [q0] + [q1, q2, q3] == UnguardedRun();
  }

  lemma HandedTwo(c: Crypto, ring: Ring, db: ScopeDb, q: Request, p: Request)
    requires Serve(c, ring, db, q).Ok? && Serve(c, ring, After(c, ring, db, q), p).Ok?
    ensures Handed(c, ring, db, [q, p]) == [Number(db.table, q), Number(After(c, ring, db, q).table, p)]
  {
    hide Serve, After, Number, Handed;
    var db1 := After(c, ring, db, q);
    HandedNil(c, ring, After(c, ring, db1, p));
    HandedCons(c, ring, db1, p, []);
    HandedCons(c, ring, db, q, [p]);
    assert [p] + [] == [p] && [q] + [p] == [q, p];
  }

  lemma HandedNil(c: Crypto, ring: Ring, db: ScopeDb)
    ensures Handed(c, ring, db, []) == []
  {
  }

  lemma HandedCons(c: Crypto, ring: Ring, db: ScopeDb, q: Request, qs: seq<Request>)
    requires Serve(c, ring, db, q).Ok?
    ensures Handed(c, ring, db, [q] + qs) == [Number(db.table, q)] + Handed(c, ring, After(c, ring, db, q), qs)
  {
    hide Serve, After, Number;
    assert ([q] + qs)[1..] == qs;
  }

  lemma ShortNames()
    ensures RawName(5) != RawName(3)
    ensures |RawName(5)| == 5 && |RawName(3)| == 5
    ensures RawName(5)[0] == 97 && RawName(3)[0] == 97
  {
    RawNamesDistinct(3, 5);
  }

  lemma ToyStep(db: ScopeDb, q: Request) returns (next: ScopeDb)
    requires db.coinPub == ToyScope().coinPub && db.coinPriv == ToyScope().coinPriv
    requires q.rand == Steady() && Number(db.table, q) <= MAX_ACCOUNT
    requires 0 < |Name(q)| < 100 && Name(q) != IMPORTED_NAME && Name(q) !in db.table.ids
    ensures Serve(Toy(), Ring([], []), db, q).Ok?
    ensures next == After(Toy(), Ring([], []), db, q)
    ensures next.coinPub == db.coinPub && next.coinPriv == db.coinPriv
    ensures next.table.last == Some(Number(db.table, q))
    ensures next.table.ids == db.table.ids[Name(q) := Number(db.table, q)]
  {
    hide Serve, AccountRowFor, Storable, Toy, Number, Name;
    ToyServes(db, q);
    ServedTable(Toy(), Ring([], []), db, q);
    next := After(Toy(), Ring([], []), db, q);
  }

  lemma NotFresh(used: set<uint32>)
    ensures !AllFresh(used, [5, 3, 4, 5])
  {
    assert [5, 3, 4, 5][1..] == [3, 4, 5] && [3, 4, 5][1..] == [4, 5] && [4, 5][1..] == [5];
    assert !AllFresh(used + {5} + {3} + {4}, [5]);
    assert !AllFresh(used + {5} + {3}, [4, 5]);
    assert !AllFresh(used + {5}, [3, 4, 5]);
  }
}
