/** Create, Open and the first Unlock: what a new manager's store contains, and that
    opening it gives a manager on which every run theorem applies.
 */
module Genesis {
  import opened ByteCodec
  import opened Errors
  import opened Primitives
  import opened Snacl
  import opened AccountRow
  import opened AccountTable
  import opened Keyring
  import opened KeyringInvariant
  import opened KeyringLocking
  import opened KeyringAddresses
  import opened KeyringRuns
  import opened KeyringFrame
  import opened ScopeCreation

  const LATEST_VERSION: uint32 := 8

  const BIP49: KeyScope := KeyScope(49, 0)
  const BIP84: KeyScope := KeyScope(84, 0)
  const BIP86: KeyScope := KeyScope(86, 0)
  const BIP44: KeyScope := KeyScope(44, 0)
  const DEFAULT_SCOPES: seq<KeyScope> := [BIP49, BIP84, BIP86, BIP44]

  /** ScopeAddrMap: address types are PubKeyHash 0, NestedWitness 3, Witness 4, Taproot 6. */
  const DEFAULT_SCHEMAS: map<KeyScope, Schema> :=
    map[BIP49 := Schema(3, 4), BIP84 := Schema(4, 4), BIP86 := Schema(6, 6), BIP44 := Schema(0, 0)]

  /** The manager's namespace: the named values of the main and sync buckets, the scopes
      and their schemas. */
  datatype Namespace = Namespace(
    version: Option<Bytes>, watchOnly: Option<Bytes>, birthday: Option<Bytes>,
    masterPub: Option<Bytes>, masterPriv: Option<Bytes>,
    cryptoPub: Option<Bytes>, cryptoPriv: Option<Bytes>, cryptoScript: Option<Bytes>,
    hdPub: Option<Bytes>, hdPriv: Option<Bytes>,
    db: Db, schemas: map<KeyScope, Schema>)

  /** The reads Create makes from the random source. */
  datatype Entropy = Entropy(
    pubSalt: Option<Bytes>, cryptoPub: Option<Bytes>, privSalt: Option<Bytes>, passSalt: Option<Bytes>,
    cryptoPriv: Option<Bytes>, cryptoScript: Option<Bytes>, nonces: Prng)

  datatype Cost = Cost(n: int64, r: int64, p: int64)

  function Read32(b: Option<Bytes>): (r: Outcome<Bytes>)
    ensures r.Ok? ==> |r.value| == KEY_SIZE && b == Some(r.value)
  {
    if b.Some? && |b.value| == KEY_SIZE then Ok(b.value) else Err(ErrCrypto)
  }

  /** newSecretKey: the derived key and the parameters to store. */
  function NewSecretKey(c: Crypto, pass: Bytes, salt: Option<Bytes>, cost: Cost): (r: Outcome<(Bytes, Params)>) {
    var s :- Read32(salt);
    match c.scrypt(pass, s, cost.n, cost.r, cost.p)
    case None => Err(ErrCrypto)
    case Some(k) => Ok((k, Params(s, c.sha256(k), cost.n, cost.r, cost.p)))
  }

  /** Parameters with the given salt and cost and the key's digest. */
  predicate HasCost(c: Crypto, params: Params, salt: Option<Bytes>, key: Bytes, cost: Cost) {
    && Some(params.salt) == salt && params.digest == c.sha256(key)
    && params.n == cost.n && params.r == cost.r && params.p == cost.p
  }

  lemma NewSecretKeyAccepts(c: Crypto, pass: Bytes, salt: Option<Bytes>, cost: Cost)
    requires Lawful(c) && NewSecretKey(c, pass, salt, cost).Ok?
    ensures var (k, params) := NewSecretKey(c, pass, salt, cost).value;
            && params.Sized() && |k| == KEY_SIZE
            && DeriveKeySpec(c, params, pass) == (Some(k), None)
            && ParseParams(ParamBytes(params)) == Some(params)
            && HasCost(c, params, salt, k, cost)
  {
    hide BoxLaws, ChildLaws, KeyLaws, ParamBytes, ParseParams;
    ParamsRoundTrip(NewSecretKey(c, pass, salt, cost).value.1);
  }

  // ------------------------------------------------------------ a created store

  /** A stored secret key that `pass` opens to `key`. */
  ghost predicate StoresKey(c: Crypto, blob: Option<Bytes>, pass: Bytes, key: Bytes) {
    && blob.Some? && ParseParams(blob.value).Some?
    && DeriveKeySpec(c, ParseParams(blob.value).value, pass) == (Some(key), None)
  }

  /** A scope as createManagerKeyScope leaves it: sound, with inverse indexes, counter 0 and
      an unused account 0. */
  ghost predicate FreshScope(c: Crypto, sec: Secrets, sc: KeyScope, d: ScopeDb) {
    && ScopeOK(c, sec, sc, d)
    && Consistent(d.table) && Inverse(d.table) && Bounded(d.table) && d.table.last == Some(0)
    && DEFAULT_ACCOUNT in d.table.rows && d.table.rows[DEFAULT_ACCOUNT].nextExternal == 0
  }

  ghost predicate DefaultScopesOK(c: Crypto, sec: Secrets, db: Db) {
    && (forall sc :: sc in db ==> FreshScope(c, sec, sc, db[sc]))
    && db.Keys == DEFAULT_SCHEMAS.Keys
  }

  /** The public half: the public passphrase opens the master key, that the public crypto key. */
  ghost predicate PublicStored(c: Crypto, ns: Namespace, pubPass: Bytes, pub: Bytes) {
    && ns.cryptoPub.Some? && |pub| == KEY_SIZE
    && exists mk :: StoresKey(c, ns.masterPub, pubPass, mk) && Decrypt(c, mk, ns.cryptoPub.value) == Some(pub)
  }

  /** A store without private keys. */
  ghost predicate CreatedWatchOnly(c: Crypto, ns: Namespace, pubPass: Bytes, pub: Bytes) {
    && ns.version == Some(Le32(LATEST_VERSION)) && ns.watchOnly == Some([1])
    && ns.birthday.Some? && |ns.birthday.value| == 8 && PublicStored(c, ns, pubPass, pub)
    && ns.masterPriv == ns.cryptoPriv == ns.cryptoScript == ns.hdPub == ns.hdPriv == None
    && ns.db == map[] && ns.schemas == map[]
  }

  ghost predicate Created(c: Crypto, sec: Secrets, ns: Namespace, pubPass: Bytes, privPass: Bytes) {
    && ns.version == Some(Le32(LATEST_VERSION)) && ns.watchOnly == Some([0])
    && ns.birthday.Some? && |ns.birthday.value| == 8
    && PublicStored(c, ns, pubPass, sec.pub)
    && StoresKey(c, ns.masterPriv, privPass, sec.master) && ParseParams(ns.masterPriv.value) == Some(sec.params)
    && ns.cryptoPriv == Some(sec.privEnc) && Decrypt(c, sec.master, sec.privEnc) == Some(sec.priv)
    && ns.cryptoScript == Some(sec.scriptEnc) && Decrypt(c, sec.master, sec.scriptEnc) == Some(sec.script)
    && ns.hdPriv.Some? && OpenKey(c, sec.priv, ns.hdPriv.value) == Some(sec.root)
    && c.neuter(sec.root).Some? && ns.hdPub.Some? && OpenKey(c, sec.pub, ns.hdPub.value) == c.neuter(sec.root)
    && |sec.priv| == KEY_SIZE && |sec.pub| == KEY_SIZE && |sec.script| == KEY_SIZE && sec.root.isPrivate
    && DefaultScopesOK(c, sec, ns.db) && ns.schemas == DEFAULT_SCHEMAS
  }

  /** The salt could be read and scrypt does not refuse the cost. */
  predicate CanDerive(c: Crypto, pass: Bytes, salt: Option<Bytes>, cost: Cost) {
    salt.Some? && |salt.value| == 32 && c.scrypt(pass, salt.value, cost.n, cost.r, cost.p).Some?
  }

  lemma NewSecretKeyExact(c: Crypto, pass: Bytes, salt: Option<Bytes>, cost: Cost)
    ensures NewSecretKey(c, pass, salt, cost).Ok? <==> CanDerive(c, pass, salt, cost)
  {
  }

  /** What the private half of Create needs: readable salts and keys, a neuterable root whose
      default scopes derive, and nonces 1 to 20. */
  predicate CanCreatePrivate(c: Crypto, root: ExtKey, privPass: Bytes, cost: Cost, e: Entropy) {
    && CanDerive(c, privPass, e.privSalt, cost)
    && Read32(e.passSalt).Ok? && Read32(e.cryptoPriv).Ok? && Read32(e.cryptoScript).Ok?
    && Nonce(e.nonces, 1).Some? && Nonce(e.nonces, 2).Some? && Nonce(e.nonces, 19).Some? && Nonce(e.nonces, 20).Some?
    && c.neuter(root).Some?
    && ScopesDerive(c, root, e.nonces)
  }

  predicate ScopesDerive(c: Crypto, root: ExtKey, rand: Prng) {
    forall i :: 0 <= i < |DEFAULT_SCOPES| ==> ScopeDerives(c, root, rand, i)
  }

  predicate ScopeDerives(c: Crypto, root: ExtKey, rand: Prng, i: nat)
    requires i < |DEFAULT_SCOPES|
  {
    Derivable(c, root, DEFAULT_SCOPES[i]) && FourNonces(rand, 3 + 4 * i)
  }

  /** What Create needs in all; without a root key no private part is made. */
  predicate CanCreate(c: Crypto, root: Option<ExtKey>, pubPass: Bytes, privPass: Bytes, cost: Cost, e: Entropy) {
    && CanDerive(c, pubPass, e.pubSalt, cost) && Read32(e.cryptoPub).Ok? && Nonce(e.nonces, 0).Some?
    && (root.Some? ==> privPass != [] && CanCreatePrivate(c, root.value, privPass, cost, e))
  }

  /** Create can succeed: the hypotheses of the run theorems are met by some store. */
  lemma CreateIsPossible()
    ensures var salt := Some(Zeros(KEY_SIZE));
            var e := Entropy(salt, salt, salt, salt, salt, salt, Steady());
            CanCreate(Toy(), Some(ExtKey(true, 0)), Zeros(KEY_SIZE), Zeros(KEY_SIZE), Cost(0, 0, 0), e)
  {
    hide ToyText, ToyParse, Le, UnLe;
    var salt := Some(Zeros(KEY_SIZE));
    var e := Entropy(salt, salt, salt, salt, salt, salt, Steady());
    var root := ExtKey(true, 0);
    forall i: nat ensures Nonce(e.nonces, i).Some? {}
    forall i | 0 <= i < |DEFAULT_SCOPES| ensures ScopeDerives(Toy(), root, e.nonces, i) {
      ToyDerives(root, DEFAULT_SCOPES[i]);
    }
  }

  lemma ToyDerives(root: ExtKey, sc: KeyScope)
    requires root.isPrivate && sc.coin <= MAX_COIN_TYPE
    ensures Derivable(Toy(), root, sc)
  {
    hide ToyText, ToyParse, Le, UnLe;
  }

  /** The loop over DefaultKeyScopes: four sealed keys and two account rows per scope. */
  method CreateDefaultScopes(c: Crypto, root: ExtKey, ring: Ring, rand: Prng,
                             ghost sec: Secrets) returns (r: Outcome<Db>)
    requires Lawful(c) && ring == Ring(sec.pub, sec.priv) && root == sec.root
    ensures r.Ok? ==> DefaultScopesOK(c, sec, r.value) && root.isPrivate
    ensures r.Ok? <==> ScopesDerive(c, root, rand)
    ensures r.Err? || r.Ok?
  {
    hide Lawful, CreateScope, FreshScope, Derivable, FourNonces;
    var db: Db := map[];
    var i := 0;
    while i < |DEFAULT_SCOPES|
      invariant 0 <= i <= |DEFAULT_SCOPES|
      invariant forall sc :: sc in db <==> sc in DEFAULT_SCOPES[..i]
      invariant forall sc :: sc in db ==> FreshScope(c, sec, sc, db[sc])
      invariant i > 0 ==> root.isPrivate
      invariant forall j :: 0 <= j < i ==> ScopeDerives(c, root, rand, j)
    {
      var sc := DEFAULT_SCOPES[i];
      var d := CreateScope(c, ring, root, sc, Some(0), rand, 3 + 4 * i);
      CreateScopeExact(c, ring, root, sc, Some(0), rand, 3 + 4 * i);
      if !d.Ok? {
        CreateScopeNoFault(c, ring, root, sc, Some(0), rand, 3 + 4 * i);
        assert !ScopeDerives(c, root, rand, i);
        return Err(d.code);
      }
      assert FreshScope(c, sec, sc, d.value) by { CreatedScopeIsFresh(c, sec, sc, rand, 3 + 4 * i); }
      HardenedNeedsPrivate(c, ring, root, sc, Some(0), rand, 3 + 4 * i);
      db := db[sc := d.value];
      assert DEFAULT_SCOPES[..i + 1] == DEFAULT_SCOPES[..i] + [sc];
      i := i + 1;
    }
    assert DEFAULT_SCOPES[..i] == DEFAULT_SCOPES;
    r := Ok(db);
  }

  lemma CreatedScopeIsFresh(c: Crypto, sec: Secrets, sc: KeyScope, rand: Prng, i: nat)
    requires Lawful(c) && CreateScope(c, Ring(sec.pub, sec.priv), sec.root, sc, Some(0), rand, i).Ok?
    ensures FreshScope(c, sec, sc, CreateScope(c, Ring(sec.pub, sec.priv), sec.root, sc, Some(0), rand, i).value)
  {
    hide Lawful, CreateScope, ScopeOK, Consistent, Inverse, Bounded;
    CreateScopeOK(c, sec, sc, Some(0), rand, i);
  }

  lemma CreateScopeNoFault(c: Crypto, ring: Ring, root: ExtKey, sc: KeyScope, last: Option<uint32>, rand: Prng, i: nat)
    ensures !CreateScope(c, ring, root, sc, last, rand, i).Fault?
  {
  }

  lemma HardenedNeedsPrivate(c: Crypto, ring: Ring, root: ExtKey, sc: KeyScope, last: Option<uint32>, rand: Prng,
                             i: nat)
    requires Lawful(c) && CreateScope(c, ring, root, sc, last, rand, i).Ok? && sc.purpose < HARDENED
    ensures root.isPrivate
  {
    hide HashLaws, BoxLaws, KeyLaws, SealScope;
  }

  const NO_SECRETS: Secrets := Secrets([], [], [], [], ExtKey(false, 0), Params([], [], 0, 0, 0), [], [])

  method Create(c: Crypto, present: bool, root: Option<ExtKey>, pubPass: Bytes, privPass: Bytes, cost: Cost,
                e: Entropy, birthday: uint64)
    returns (res: Outcome<Namespace>, ghost sec: Secrets)
    requires Lawful(c)
    ensures present ==> res == Err(ErrAlreadyExists)
    ensures !present && root.Some? && privPass == [] ==> res == Err(ErrEmptyPassphrase)
    ensures res.Ok? <==> !present && CanCreate(c, root, pubPass, privPass, cost, e)
    ensures res.Ok? && root.Some? ==>
              && Created(c, sec, res.value, pubPass, privPass)
              && sec.root == root.value && e.cryptoPriv == Some(sec.priv) && e.cryptoPub == Some(sec.pub)
              && e.cryptoScript == Some(sec.script)
              && res.value.birthday == Some(Le64(birthday))
              && HasCost(c, sec.params, e.privSalt, sec.master, cost)
    ensures res.Ok? && root == None ==>
              e.cryptoPub.Some? && CreatedWatchOnly(c, res.value, pubPass, e.cryptoPub.value)
              && res.value.birthday == Some(Le64(birthday))
    ensures res.Ok? ==> exists mk ::
              res.value.masterPub.Some? && ParseParams(res.value.masterPub.value).Some? &&
              HasCost(c, ParseParams(res.value.masterPub.value).value, e.pubSalt, mk, cost)
  {
    hide Lawful, DefaultScopesOK, DeriveKeySpec, ParamBytes, ParseParams, Decrypt, Le32, Le64, NewSecretKey;
    sec := NO_SECRETS;
    if present { return Err(ErrAlreadyExists), sec; }
    if root.Some? && |privPass| == 0 { return Err(ErrEmptyPassphrase), sec; }
    var ns := Namespace(Some(Le32(LATEST_VERSION)), None, None, None, None, None, None, None, None, None, map[], map[]);
    NewSecretKeyExact(c, pubPass, e.pubSalt, cost);
    var pub := NewSecretKey(c, pubPass, e.pubSalt, cost);
    if !pub.Ok? { return pub.PropagateFailure(), sec; }
    NewSecretKeyAccepts(c, pubPass, e.pubSalt, cost);
    var cryptoPub := Read32(e.cryptoPub);
    if !cryptoPub.Ok? { return cryptoPub.PropagateFailure(), sec; }
    var cryptoPubEnc := SealWith(c, pub.value.0, cryptoPub.value, e.nonces, 0);
    if !cryptoPubEnc.Ok? { return cryptoPubEnc.PropagateFailure(), sec; }
    if root.Some? {
      ns, sec, res := CreatePrivate(c, ns, root.value, privPass, cost, e, cryptoPub.value);
      if !res.Ok? { return res, sec; }
    }
    ns := ns.(masterPub := Some(ParamBytes(pub.value.1)), cryptoPub := Some(cryptoPubEnc.value),
              watchOnly := Some([if root == None then 1 else 0]), birthday := Some(Le64(birthday)));
    assert StoresKey(c, ns.masterPub, pubPass, pub.value.0);
    res := Ok(ns);
  }

  /** The private half of Create. */
  method CreatePrivate(c: Crypto, ns: Namespace, root: ExtKey, privPass: Bytes, cost: Cost, e: Entropy,
                       cryptoPub: Bytes)
    returns (out: Namespace, ghost sec: Secrets, res: Outcome<Namespace>)
    requires Lawful(c) && |cryptoPub| == KEY_SIZE
    ensures res.Ok? <==> CanCreatePrivate(c, root, privPass, cost, e)
    ensures res.Ok? ==>
              && sec.root == root && e.cryptoPriv == Some(sec.priv) && sec.pub == cryptoPub
              && |sec.priv| == KEY_SIZE && root.isPrivate
              && StoresKey(c, out.masterPriv, privPass, sec.master)
              && ParseParams(out.masterPriv.value) == Some(sec.params)
              && out.cryptoPriv == Some(sec.privEnc) && Decrypt(c, sec.master, sec.privEnc) == Some(sec.priv)
              && out.cryptoScript == Some(sec.scriptEnc) && Decrypt(c, sec.master, sec.scriptEnc) == Some(sec.script)
              && e.cryptoScript == Some(sec.script) && |sec.script| == KEY_SIZE
              && out.hdPriv.Some? && OpenKey(c, sec.priv, out.hdPriv.value) == Some(root)
              && c.neuter(root).Some? && out.hdPub.Some? && OpenKey(c, sec.pub, out.hdPub.value) == c.neuter(root)
              && HasCost(c, sec.params, e.privSalt, sec.master, cost)
              && DefaultScopesOK(c, sec, out.db) && out.schemas == DEFAULT_SCHEMAS
              && out.version == ns.version
  {
    hide Lawful, DefaultScopesOK, DeriveKeySpec, ParamBytes, ParseParams, Decrypt, NewSecretKey;
    out := ns;
    sec := NO_SECRETS;
    NewSecretKeyExact(c, privPass, e.privSalt, cost);
    var priv := NewSecretKey(c, privPass, e.privSalt, cost);
    if !priv.Ok? { res := priv.PropagateFailure(); return; }
    NewSecretKeyAccepts(c, privPass, e.privSalt, cost);
    var salt := Read32(e.passSalt);
    if !salt.Ok? { res := salt.PropagateFailure(); return; }
    var cryptoPriv := Read32(e.cryptoPriv);
    if !cryptoPriv.Ok? { res := cryptoPriv.PropagateFailure(); return; }
    var cryptoScript := Read32(e.cryptoScript);
    if !cryptoScript.Ok? { res := cryptoScript.PropagateFailure(); return; }
    var privEnc := SealWith(c, priv.value.0, cryptoPriv.value, e.nonces, 1);
    if !privEnc.Ok? { res := privEnc.PropagateFailure(); return; }
    var scriptEnc := SealWith(c, priv.value.0, cryptoScript.value, e.nonces, 2);
    if !scriptEnc.Ok? { res := scriptEnc.PropagateFailure(); return; }
    var rootPub := c.neuter(root);
    if rootPub == None { res := Err(ErrKeyChain); return; }
    sec := Secrets(priv.value.0, cryptoPriv.value, cryptoPub, cryptoScript.value, root, priv.value.1, privEnc.value,
                   scriptEnc.value);
    var db := CreateDefaultScopes(c, root, Ring(cryptoPub, cryptoPriv.value), e.nonces, sec);
    if !db.Ok? { res := db.PropagateFailure(); return; }
    var hdPriv := SealWith(c, cryptoPriv.value, c.text(root), e.nonces, 19);
    if !hdPriv.Ok? { res := hdPriv.PropagateFailure(); return; }
    var hdPub := SealWith(c, cryptoPub, c.text(rootPub.value), e.nonces, 20);
    if !hdPub.Ok? { res := hdPub.PropagateFailure(); return; }
    TextOpens(c, cryptoPriv.value, root, hdPriv.value);
    TextOpens(c, cryptoPub, rootPub.value, hdPub.value);
    out := ns.(masterPriv := Some(ParamBytes(priv.value.1)), cryptoPriv := Some(privEnc.value),
               cryptoScript := Some(scriptEnc.value),
               hdPriv := Some(hdPriv.value), hdPub := Some(hdPub.value), db := db.value, schemas := DEFAULT_SCHEMAS);
    res := Ok(out);
  }

  lemma TextOpens(c: Crypto, key: Bytes, k: ExtKey, blob: Bytes)
    requires Lawful(c) && Decrypt(c, key, blob) == Some(c.text(k))
    ensures OpenKey(c, key, blob) == Some(k)
  {
    hide HashLaws, BoxLaws, ChildLaws, Decrypt;
  }

  // ------------------------------------------------------------------------ open

  function OrEmpty(b: Option<Bytes>): Bytes { if b.Some? then b.value else [] }

  /** Open.  `net` tells whether the manager stores its chain parameters: newManager as
      written does not. */
  function Open(c: Crypto, ns: Option<Namespace>, pubPass: Bytes, salt: Option<Bytes>, net: bool): Outcome<Mgr> {
    if ns == None then Err(ErrNoExist)
    else if ns.value.version == None then Err(ErrDatabase)
    else if |ns.value.version.value| < 4 then Fault
    else if UnLe32(ns.value.version.value[..4]) != LATEST_VERSION then Err(ErrUpgrade)
    else if |OrEmpty(ns.value.watchOnly)| != 1 then Err(ErrDatabase)
    else if ns.value.masterPub == None || ns.value.cryptoPub == None then Err(ErrDatabase)
    else if |OrEmpty(ns.value.birthday)| != 8 then Err(ErrDatabase)
    else OpenKeys(c, ns.value, OrEmpty(ns.value.watchOnly)[0] != 0, pubPass, salt, net)
  }

  function OpenKeys(c: Crypto, ns: Namespace, watching: bool, pubPass: Bytes, salt: Option<Bytes>,
                    net: bool): Outcome<Mgr>
    requires ns.masterPub.Some? && ns.cryptoPub.Some?
  {
    var privParams := ParseParams(OrEmpty(ns.masterPriv));
    if !watching && privParams == None then Err(ErrCrypto) else
    match ParseParams(ns.masterPub.value)
    case None => Err(ErrCrypto)
    case Some(pubParams) =>
      match DeriveKeySpec(c, pubParams, pubPass)
      case (_, Some(_)) => Err(ErrWrongPassphrase)
      case (k, None) =>
        match Decrypt(c, k.value, ns.cryptoPub.value)
        case None => Err(ErrCrypto)
        case Some(ct) =>
          var s :- Read32(salt);
          if !(ns.db.Keys <= ns.schemas.Keys) then Err(ErrScopeNotFound) else
          Ok(NewManager(ns, watching,
                        if privParams.Some? then privParams.value else Params(Zeros(32), Zeros(32), 0, 0, 0),
                        CopyInto(Zeros(KEY_SIZE), ct), s, net))
  }

  /** newManager: locked, blank private keys, no accounts cached. */
  function NewManager(ns: Namespace, watching: bool, params: Params, cryptoPub: Bytes, salt: Bytes, net: bool): Mgr
    requires ns.db.Keys <= ns.schemas.Keys
  {
    Mgr(net, watching, true, Zeros(KEY_SIZE), params, cryptoPub, Zeros(KEY_SIZE), OrEmpty(ns.cryptoPriv),
        Zeros(KEY_SIZE), OrEmpty(ns.cryptoScript), salt, Zeros(64),
        map sc | sc in ns.db :: Scoped(ns.schemas[sc], map[], map[], []), [])
  }

  /** The named values of a store that opens with `pubPass`, whatever its scopes. */
  ghost predicate KeysStored(c: Crypto, sec: Secrets, ns: Namespace, pubPass: Bytes) {
    && ns.version == Some(Le32(LATEST_VERSION)) && ns.watchOnly == Some([0])
    && ns.birthday.Some? && |ns.birthday.value| == 8
    && PublicStored(c, ns, pubPass, sec.pub)
    && ns.masterPriv.Some? && ParseParams(ns.masterPriv.value) == Some(sec.params)
    && ns.cryptoPriv == Some(sec.privEnc) && ns.cryptoScript == Some(sec.scriptEnc) && |sec.pub| == KEY_SIZE
  }

  lemma OpensStored(c: Crypto, sec: Secrets, ns: Namespace, pubPass: Bytes, salt: Bytes, net: bool)
    requires KeysStored(c, sec, ns, pubPass) && ns.db.Keys <= ns.schemas.Keys && |salt| == KEY_SIZE
    ensures Open(c, Some(ns), pubPass, Some(salt), net) == Ok(NewManager(ns, false, sec.params, sec.pub, salt, net))
  {
    hide Decrypt, ParseParams, Le32, UnLe, NewManager;
    assert Le32(LATEST_VERSION)[..4] == Le32(LATEST_VERSION);
    Le32Injective(UnLe32(Le32(LATEST_VERSION)), LATEST_VERSION);
    var mk :| StoresKey(c, ns.masterPub, pubPass, mk) && Decrypt(c, mk, ns.cryptoPub.value) == Some(sec.pub);
    CopyAll(sec.pub);
  }

  lemma OpensCreated(c: Crypto, sec: Secrets, ns: Namespace, pubPass: Bytes, privPass: Bytes, salt: Bytes, net: bool)
    requires Created(c, sec, ns, pubPass, privPass) && |salt| == KEY_SIZE
    ensures Open(c, Some(ns), pubPass, Some(salt), net) == Ok(NewManager(ns, false, sec.params, sec.pub, salt, net))
  {
    hide Decrypt, ParseParams, DefaultScopesOK, Le32, UnLe, NewManager, Open, OpenKey;
    assert ns.db.Keys <= ns.schemas.Keys by { ScopesAreDefault(c, sec, ns.db); }
    OpensStored(c, sec, ns, pubPass, salt, net);
  }

  /** The created namespace with the scopes, rows and schemas of a later state. */
  function AtState(ns: Namespace, w: World): Namespace {
    ns.(db := w.db, schemas := map sc | sc in w.m.scopes :: w.m.scopes[sc].schema)
  }

  /** Closing and opening at any point of a run gives the reopened manager of that run: the
      stored keys never change, and the schemas are those of the scopes. */
  lemma ReopenIsOpen(c: Crypto, sec: Secrets, ns: Namespace, pubPass: Bytes, privPass: Bytes, w: World, salt: Bytes)
    requires Created(c, sec, ns, pubPass, privPass) && WorldOK(c, sec, w) && |salt| == KEY_SIZE
    ensures Open(c, Some(AtState(ns, w)), pubPass, Some(salt), w.m.net) == Ok(Reopened(w.m, salt))
  {
    hide Decrypt, ParseParams, DefaultScopesOK, Le32, UnLe, Open, OpenKey, DbOK, TablesOK, Structured, Mode, AccountsOK,
      HeapOK;
    assert KeysStored(c, sec, AtState(ns, w), pubPass);
    OpensStored(c, sec, AtState(ns, w), pubPass, salt, w.m.net);
    var m := NewManager(AtState(ns, w), false, sec.params, sec.pub, salt, w.m.net);
    assert m.scopes == Reopened(w.m, salt).scopes;
  }

  /** A created store opens exactly with a passphrase that its public digest accepts and
      whose key opens the public crypto key, and with a salt that could be read; a passphrase
      the digest refuses is reported as wrong, and the creation's own always passes. */
  lemma OpenVerdict(c: Crypto, sec: Secrets, ns: Namespace, pubPass: Bytes, privPass: Bytes, tried: Bytes,
                    salt: Option<Bytes>, net: bool)
    requires Created(c, sec, ns, pubPass, privPass)
    ensures var params := ParseParams(ns.masterPub.value).value;
            && (Open(c, Some(ns), tried, salt, net).Ok? <==>
                  && Accepts(c, params, tried) && Read32(salt).Ok?
                  && Decrypt(c, DeriveKeySpec(c, params, tried).0.value, ns.cryptoPub.value).Some?)
            && (!Accepts(c, params, tried) ==> Open(c, Some(ns), tried, salt, net) == Err(ErrWrongPassphrase))
    ensures Read32(salt).Ok? ==> Open(c, Some(ns), pubPass, salt, net).Ok?
  {
    hide Le32, UnLe, DefaultScopesOK, DbOK, Decrypt, DeriveKeySpec, ParseParams, OpenKey;
    assert Le32(LATEST_VERSION)[..4] == Le32(LATEST_VERSION);
    Le32Injective(UnLe32(Le32(LATEST_VERSION)), LATEST_VERSION);
    assert ns.db.Keys <= ns.schemas.Keys by { ScopesAreDefault(c, sec, ns.db); }
    var mk :| StoresKey(c, ns.masterPub, pubPass, mk) && Decrypt(c, mk, ns.cryptoPub.value) == Some(sec.pub);
  }

  lemma ScopesAreDefault(c: Crypto, sec: Secrets, db: Db)
    requires DefaultScopesOK(c, sec, db)
    ensures db.Keys == DEFAULT_SCHEMAS.Keys && DbOK(c, sec, db) && TablesOK(db)
  {
    hide ScopeOK, Consistent, Inverse, Bounded;
  }

  lemma CopyAll(b: Bytes)
    requires |b| == KEY_SIZE
    ensures CopyInto(Zeros(KEY_SIZE), b) == b
  {
    assert b[..KEY_SIZE] == b;
  }

  /** Create then Open: always succeeds with the creation's public passphrase, and the
      opened manager, with or without its chain parameters, satisfies the run invariant. */
  lemma OpenAfterCreate(c: Crypto, sec: Secrets, ns: Namespace, pubPass: Bytes, privPass: Bytes, salt: Bytes, net: bool)
    requires Created(c, sec, ns, pubPass, privPass) && |salt| == KEY_SIZE
    ensures var m := Open(c, Some(ns), pubPass, Some(salt), net);
            m.Ok? && WorldOK(c, sec, World(m.value, ns.db, ns.hdPriv, privPass))
            && m.value.net == net && m.value.params == sec.params && Accepts(c, m.value.params, privPass)
            && forall sc :: sc in m.value.scopes ==>
                 m.value.scopes[sc].queue == [] && m.value.scopes[sc].accounts == map[]
  {
    hide Decrypt, ParseParams, DefaultScopesOK, OpenKey, DeriveKeySpec, DbOK, TablesOK, Open;
    OpensCreated(c, sec, ns, pubPass, privPass, salt, net);
    ScopesAreDefault(c, sec, ns.db);
    var m := NewManager(ns, false, sec.params, sec.pub, salt, net);
    assert Base(c, sec, m);
    assert Structured(m) && Mode(c, sec, m) && AccountsOK(c, sec, m) && HeapOK(c, sec, m);
  }

  /** ... then Unlock with the creation's private passphrase always succeeds (no random
      reads are needed) and restores the private crypto key Create generated; the public one
      is there already.  The script key stays blank although its sealed form would open. */
  lemma CreateOpenUnlock(c: Crypto, sec: Secrets, ns: Namespace, pubPass: Bytes, privPass: Bytes, salt: Bytes,
                         net: bool, rand: Prng, post: Mgr, r: Outcome<()>)
    requires Created(c, sec, ns, pubPass, privPass) && |salt| == KEY_SIZE
    requires Open(c, Some(ns), pubPass, Some(salt), net).Ok?
    requires Structured(Open(c, Some(ns), pubPass, Some(salt), net).value)
    requires Unlocks(c, Open(c, Some(ns), pubPass, Some(salt), net).value, privPass, rand, post, r)
    ensures r.Ok? && !post.locked && post.net == net && post.scopes.Keys == ns.db.Keys && MgrOK(c, sec, post)
    ensures post.cryptoPriv == sec.priv && post.cryptoPub == sec.pub && post.cryptoScript == Zeros(KEY_SIZE)
    ensures Decrypt(c, post.master, post.cryptoScriptEnc) == Some(sec.script)
    ensures post.cryptoScript == sec.script <==> sec.script == Zeros(KEY_SIZE)
  {
    hide Open, Created, Structured, Unlocks, MgrOK, Accepts;
    OpenAfterCreate(c, sec, ns, pubPass, privPass, salt, net);
    var m := Open(c, Some(ns), pubPass, Some(salt), net).value;
    assert MgrOK(c, sec, m) && m.scopes.Keys == ns.db.Keys && m.locked by {
      OpenIsLocked(c, sec, ns, pubPass, privPass, salt, net);
    }
    assert OnlyMaster(c, sec, privPass) by { OwnPassphrase(c, sec, ns, pubPass, privPass); }
    NothingQueued(m, rand);
    UnlockVerdict(c, sec, m, privPass, rand, post, r);
    UnlockOK(c, sec, m, privPass, rand, post, r);
    UnlockedPre(c, sec, m, privPass, rand, post, r);
    UnlockScopes(c, sec, m, privPass, rand, post, r);
    BaseOf(c, sec, post);
  }

  lemma BaseOf(c: Crypto, sec: Secrets, m: Mgr)
    requires MgrOK(c, sec, m)
    ensures m.cryptoPub == sec.pub && m.cryptoScript == Zeros(KEY_SIZE)
    ensures Decrypt(c, sec.master, m.cryptoScriptEnc) == Some(sec.script)
  {
    hide Structured, Mode, AccountsOK, HeapOK, Decrypt;
  }

  /** No run of an opened manager ever has the script key that Create generated, unless that
      key happened to be all zeros, while its sealed form can be opened throughout. */
  lemma ScriptKeyNeverComesBack(c: Crypto, sec: Secrets, ns: Namespace, pubPass: Bytes, privPass: Bytes, salt: Bytes,
                                net: bool, ws: seq<World>, ops: seq<Op>, i: nat)
    requires Created(c, sec, ns, pubPass, privPass) && |salt| == KEY_SIZE
    requires IsRun(c, ws, ops) && i < |ws| && Open(c, Some(ns), pubPass, Some(salt), net) == Ok(ws[0].m)
    ensures ws[i].m.cryptoScript == Zeros(KEY_SIZE) && ws[i].m.net == net
    ensures ws[i].m.cryptoScript == sec.script <==> sec.script == Zeros(KEY_SIZE)
    ensures Decrypt(c, sec.master, ws[i].m.cryptoScriptEnc) == Some(sec.script)
  {
    hide IsRun, Open, Decrypt, ParseParams, DefaultScopesOK, OpenKey, DeriveKeySpec;
    OpensCreated(c, sec, ns, pubPass, privPass, salt, net);
    ScriptKeyStaysBlank(c, ws, ops, i);
  }

  lemma OpensDefaultSchemas(c: Crypto, sec: Secrets, ns: Namespace, pubPass: Bytes, privPass: Bytes, salt: Bytes,
                            net: bool)
    requires Created(c, sec, ns, pubPass, privPass) && |salt| == KEY_SIZE
    ensures var m := Open(c, Some(ns), pubPass, Some(salt), net);
            m.Ok? && forall sc :: sc in m.value.scopes ==>
                       sc in DEFAULT_SCHEMAS && m.value.scopes[sc].schema == DEFAULT_SCHEMAS[sc]
  {
    hide Open, Decrypt, ParseParams, OpenKey, DeriveKeySpec, FreshScope;
    OpensCreated(c, sec, ns, pubPass, privPass, salt, net);
  }

  lemma OwnPassphrase(c: Crypto, sec: Secrets, ns: Namespace, pubPass: Bytes, privPass: Bytes)
    requires Created(c, sec, ns, pubPass, privPass)
    ensures OnlyMaster(c, sec, privPass) && Accepts(c, sec.params, privPass)
  {
    hide DefaultScopesOK, ParseParams, Decrypt, OpenKey, DeriveKeySpec;
  }

  /** Any passphrase a created store accepts derives a key with the true master key's digest;
      as Create refuses an empty one, accepting [] takes a collision. */
  lemma AcceptedCollides(c: Crypto, sec: Secrets, ns: Namespace, pubPass: Bytes, privPass: Bytes, pass: Bytes)
    requires Created(c, sec, ns, pubPass, privPass) && Accepts(c, sec.params, pass)
    ensures DeriveKeySpec(c, sec.params, pass).0.Some?
    ensures c.sha256(DeriveKeySpec(c, sec.params, pass).0.value) == c.sha256(sec.master)
  {
    hide DefaultScopesOK, ParseParams, Decrypt, OpenKey;
  }

  lemma NothingQueued(m: Mgr, rand: Prng)
    requires forall sc :: sc in m.scopes ==> m.scopes[sc].queue == []
    ensures QueueTotal(m) == 0 && NoncesFor(rand, QueueTotal(m))
  {
    assert Entries(m.scopes, m.scopes.Keys) == {};
  }

  lemma OpenIsLocked(c: Crypto, sec: Secrets, ns: Namespace, pubPass: Bytes, privPass: Bytes, salt: Bytes, net: bool)
    requires Created(c, sec, ns, pubPass, privPass) && |salt| == KEY_SIZE
    ensures Open(c, Some(ns), pubPass, Some(salt), net).Ok?
    ensures Open(c, Some(ns), pubPass, Some(salt), net).value.locked
    ensures Open(c, Some(ns), pubPass, Some(salt), net).value.scopes.Keys == ns.db.Keys
  {
    hide Open;
    OpensCreated(c, sec, ns, pubPass, privPass, salt, net);
  }

  // ------------------------------------------------------------- account zero

  /** AccountKey spelt out: it is the child m / purpose' / coin_type' / account', exactly for
      coins below 2^31 and accounts up to 2^31 - 2. */
  lemma AccountKeyPath(c: Crypto, root: ExtKey, sc: KeyScope, n: uint32, k: ExtKey)
    requires sc.purpose < HARDENED
    ensures AccountKey(c, root, sc, n) == Ok(k) <==>
            && sc.coin < 0x8000_0000 && n <= 0x7FFF_FFFE
            && var p := c.child(root, sc.purpose + 0x8000_0000);
            && p.Child? && var t := c.child(p.key, sc.coin + 0x8000_0000);
            && t.Child? && c.child(t.key, n + 0x8000_0000) == Child(k)
  {
    hide DeriveCoinTypeKey, DeriveAccountKey;
    CoinTypeOffsets(c, root, sc);
    if DeriveCoinTypeKey(c, root, sc).Ok? {
      HardenedOffset(c, DeriveCoinTypeKey(c, root, sc).value, n);
    }
  }

  /** ... and an address key the child branch / index below it. */
  lemma AddressKeyPath(c: Crypto, root: ExtKey, sc: KeyScope, path: Path, k: ExtKey)
    ensures AddressKey(c, root, sc, path) == Ok(k) <==>
            && AccountKey(c, root, sc, path.account).Ok?
            && var b := c.child(AccountKey(c, root, sc, path.account).value, path.branch);
            b.Child? && c.child(b.key, path.index) == Child(k)
  {
    hide AccountKey;
  }

  /** Create, Open, Unlock, load account 0 of a default scope: it loads exactly when chain
      parameters are set, its first external child exists and two reads succeed, with the key at
      m / purpose' / coin_type' / 0'. */
  lemma FirstAccountLoads(c: Crypto, sec: Secrets, ns: Namespace, pubPass: Bytes, privPass: Bytes, salt: Bytes,
                          net: bool, rand: Prng, post: Mgr, r: Outcome<()>, sc: KeyScope, nonces: Prng)
    requires Lawful(c) && Created(c, sec, ns, pubPass, privPass) && |salt| == KEY_SIZE
    requires Open(c, Some(ns), pubPass, Some(salt), net).Ok?
    requires Structured(Open(c, Some(ns), pubPass, Some(salt), net).value)
    requires Unlocks(c, Open(c, Some(ns), pubPass, Some(salt), net).value, privPass, rand, post, r)
    requires sc in DEFAULT_SCOPES
    ensures sc in post.scopes && AccountKey(c, sec.root, sc, 0).Ok?
    ensures LoadAccount(c, post, ns.db, sc, 0, nonces).1.Ok? <==>
            net && DeriveKey(c, Some(AccountKey(c, sec.root, sc, 0).value), EXTERNAL, 0).Ok? && TwoReads(nonces, 0)
    ensures LoadAccount(c, post, ns.db, sc, 0, nonces).1.Ok? ==>
            LoadAccount(c, post, ns.db, sc, 0, nonces).0.scopes[sc].accounts[0].keyPriv ==
              Some(AccountKey(c, sec.root, sc, 0).value)
  {
    hide Lawful, Open, Structured, Unlocks, MgrOK, DbOK, LoadAccount, AccountKey, Created, TwoReads, DeriveKey, Loaded;
    UnlockedFresh(c, sec, ns, pubPass, privPass, salt, net, rand, post, r, sc);
    FreshRow(c, sec, ns, pubPass, privPass, sc);
    LoadAccountExact(c, sec, post, ns.db, sc, 0, nonces);
    if LoadAccount(c, post, ns.db, sc, 0, nonces).1.Ok? {
      LoadedPrivate(c, sec, sc, 0, ns.db[sc].table.rows[0],
                    LoadAccount(c, post, ns.db, sc, 0, nonces).0.scopes[sc].accounts[0]);
    }
  }

  lemma LoadedPrivate(c: Crypto, sec: Secrets, sc: KeyScope, n: uint32, row: AcctRow, a: Account)
    requires Loaded(c, sec, sc, n, row, false, a)
    ensures AccountKey(c, sec.root, sc, n).Ok? && a.keyPriv == Some(AccountKey(c, sec.root, sc, n).value)
  {
  }

  lemma FreshRow(c: Crypto, sec: Secrets, ns: Namespace, pubPass: Bytes, privPass: Bytes, sc: KeyScope)
    requires Created(c, sec, ns, pubPass, privPass) && sc in DEFAULT_SCOPES
    ensures DbOK(c, sec, ns.db) && sc in ns.db && 0 in ns.db[sc].table.rows && ns.db[sc].table.rows[0].nextExternal == 0
  {
    hide ScopeOK, Consistent, Inverse, Bounded, ParseParams, Decrypt, OpenKey;
    ScopesAreDefault(c, sec, ns.db);
    assert FreshScope(c, sec, sc, ns.db[sc]);
  }

  /** After the first unlock no account of a default scope is cached. */
  lemma UnlockedFresh(c: Crypto, sec: Secrets, ns: Namespace, pubPass: Bytes, privPass: Bytes, salt: Bytes, net: bool,
                      rand: Prng, post: Mgr, r: Outcome<()>, sc: KeyScope)
    requires Created(c, sec, ns, pubPass, privPass) && |salt| == KEY_SIZE
    requires Open(c, Some(ns), pubPass, Some(salt), net).Ok?
    requires Structured(Open(c, Some(ns), pubPass, Some(salt), net).value)
    requires Unlocks(c, Open(c, Some(ns), pubPass, Some(salt), net).value, privPass, rand, post, r)
    requires sc in DEFAULT_SCOPES
    ensures MgrOK(c, sec, post) && !post.locked && post.net == net && sc in post.scopes
    ensures 0 !in post.scopes[sc].accounts
    ensures KeyType(post.scopes[sc].schema.external)
  {
    hide Open, Structured, Unlocks, MgrOK, Created, Drained, OnlyMaster, TablesOK, DbOK, OpenKey, Accepts;
    CreateOpenUnlock(c, sec, ns, pubPass, privPass, salt, net, rand, post, r);
    OpenAfterCreate(c, sec, ns, pubPass, privPass, salt, net);
    var m := Open(c, Some(ns), pubPass, Some(salt), net).value;
    OpenIsLocked(c, sec, ns, pubPass, privPass, salt, net);
    OwnPassphrase(c, sec, ns, pubPass, privPass);
    UnlockedPre(c, sec, m, privPass, rand, post, r);
    FreshRow(c, sec, ns, pubPass, privPass, sc);
    OpensDefaultSchemas(c, sec, ns, pubPass, privPass, salt, net);
    DrainedScope(c, sec.priv, m, post, sc);
  }

  // ------------------------------------------------------------ any store, no keys

  /** Open on an arbitrary store, exactly: the version is the latest, the flags and the
      birthday have their sizes, the public keys are there and (unless watching only) the
      private parameters, the passphrase passes the public digest, a salt can be read, and
      every scope has a schema.  The manager is locked, knows the scopes and has nothing
      cached. */
  lemma OpenExact(c: Crypto, ns: Namespace, pass: Bytes, salt: Option<Bytes>, net: bool)
    ensures Open(c, Some(ns), pass, salt, net).Ok? <==>
            && ns.version.Some? && |ns.version.value| >= 4 && UnLe32(ns.version.value[..4]) == 8
            && ns.watchOnly.Some? && |ns.watchOnly.value| == 1 && ns.birthday.Some? && |ns.birthday.value| == 8
            && (ns.watchOnly.value[0] == 0 ==> ns.masterPriv.Some? && ParseParams(ns.masterPriv.value).Some?)
            && ns.masterPub.Some? && ParseParams(ns.masterPub.value).Some? && ns.cryptoPub.Some?
            && Read32(salt).Ok? && ns.db.Keys <= ns.schemas.Keys
            && var params := ParseParams(ns.masterPub.value).value;
            Accepts(c, params, pass) && Decrypt(c, DeriveKeySpec(c, params, pass).0.value, ns.cryptoPub.value).Some?
    ensures Open(c, Some(ns), pass, salt, net).Ok? ==>
            var m := Open(c, Some(ns), pass, salt, net).value;
            && (m.watchingOnly <==> ns.watchOnly.value[0] != 0) && m.locked && m.net == net && m.heap == []
            && Some(m.salt) == salt && m.cryptoPriv == m.cryptoScript == m.master == Zeros(32) && m.hashed == Zeros(64)
            && (!m.watchingOnly ==> Some(m.params) == ParseParams(ns.masterPriv.value))
            && m.scopes == map sc | sc in ns.db :: Scoped(ns.schemas[sc], map[], map[], [])
    ensures Open(c, None, pass, salt, net) == Err(ErrNoExist)
    ensures ns.version.Some? && |ns.version.value| >= 4 && UnLe32(ns.version.value[..4]) != 8 ==>
            Open(c, Some(ns), pass, salt, net) == Err(ErrUpgrade)
  {
    hide Decrypt, DeriveKeySpec, UnLe, Le32;
  }

  /** A store created without a root key opens with its public passphrase to a watching-only
      manager without scopes. */
  lemma WatchOnlyOpens(c: Crypto, ns: Namespace, pubPass: Bytes, pub: Bytes, salt: Bytes, net: bool)
    requires CreatedWatchOnly(c, ns, pubPass, pub) && |salt| == KEY_SIZE
    ensures var m := Open(c, Some(ns), pubPass, Some(salt), net);
            m.Ok? && m.value.watchingOnly && m.value.cryptoPub == pub && m.value.scopes == map[] && m.value.heap == []
  {
    hide Decrypt, DeriveKeySpec, ParseParams, UnLe, Le32;
    assert Le32(LATEST_VERSION)[..4] == Le32(LATEST_VERSION);
    Le32Injective(UnLe32(Le32(LATEST_VERSION)), LATEST_VERSION);
    CopyAll(pub);
  }

  // ---------------------------------------------------- as the code is written

  /** newManager never stores the chain parameters, and without them: a stored account loads
      exactly when the manager is locked, the scope's external type has no address and the
      last external child exists; a path of it derives exactly when, besides, the branch's
      type has no address and the child exists; and nothing is ever cached or handed out. */
  lemma WithoutParamsExact(c: Crypto, sec: Secrets, m: Mgr, db: Db, sc: KeyScope, path: Path, rand: Prng)
    requires Lawful(c) && MgrOK(c, sec, m) && DbOK(c, sec, db) && !m.net && sc in m.scopes && sc in db
    requires path.account !in m.scopes[sc].accounts && path.account in db[sc].table.rows && path.account != IMPORTED
    ensures AccountKey(c, sec.root, sc, path.account).Ok?
    ensures var pub := c.neuter(AccountKey(c, sec.root, sc, path.account).value);
            && (LoadAccount(c, m, db, sc, path.account, rand).1.Ok? <==>
                  && m.locked && !KeyType(m.scopes[sc].schema.external)
                  && DeriveKey(c, pub, EXTERNAL, LastIndex(db[sc].table.rows[path.account])).Ok?)
            && (DeriveAddress(c, m, db, sc, path, rand).1.Ok? <==>
                  && LoadAccount(c, m, db, sc, path.account, rand).1.Ok?
                  && !KeyType(if path.branch == 1 then m.scopes[sc].schema.internal else m.scopes[sc].schema.external)
                  && DeriveKey(c, pub, path.branch, path.index).Ok?)
    ensures !CacheAddress(c, m, db, sc, path, rand).1.Ok?
    ensures forall q :: !NextAddresses(c, m, db, sc, path.account, q, rand).2.Ok?
  {
    hide Lawful, MgrOK, DbOK, LoadAccount, DeriveAddress, NextAddresses, DeriveKey, AccountKey, TwoReads, Loaded,
      Indices;
    LoadAccountExact(c, sec, m, db, sc, path.account, rand);
    AfterLoad(c, m, db, sc, path, rand);
    if LoadAccount(c, m, db, sc, path.account, rand).1.Ok? {
      LoadAccountOK(c, sec, m, db, sc, path.account, rand);
      var m1 := LoadAccount(c, m, db, sc, path.account, rand).0;
      DeriveAddressExact(c, sec, m1, db, sc, path, rand);
      LoadedPublic(c, sec, m1, sc, path, db[sc].table.rows[path.account]);
      forall q ensures !NextAddresses(c, m, db, sc, path.account, q, rand).2.Ok? {
        NextAfterLoad(c, m, db, sc, path.account, q, rand);
        NextAddressesExact(c, sec, m1, db, sc, path.account, q, rand);
      }
    } else {
      forall q ensures !NextAddresses(c, m, db, sc, path.account, q, rand).2.Ok? {
        NextAfterLoad(c, m, db, sc, path.account, q, rand);
      }
    }
  }

  lemma LoadedPublic(c: Crypto, sec: Secrets, m: Mgr, sc: KeyScope, path: Path, row: AcctRow)
    requires m.locked && sc in m.scopes && path.account in m.scopes[sc].accounts
    requires Loaded(c, sec, sc, path.account, row, true, m.scopes[sc].accounts[path.account])
    ensures AccountKey(c, sec.root, sc, path.account).Ok?
    ensures DerivedKey(c, m, sc, path) == DeriveKey(c, c.neuter(AccountKey(c, sec.root, sc, path.account).value),
                                                    path.branch, path.index)
  {
    hide DeriveKey, AccountKey;
  }

  /** The birthday is written little-endian and read big-endian: it comes back exactly
      when its eight bytes are a palindrome. */
  lemma BirthdayComesBack(t: uint64)
    ensures UnBe64(Le64(t)) == t <==> Reverse(Le64(t)) == Le64(t)
  {
    hide Le64;
    Le64Injective(UnBe64(Le64(t)), t);
  }
}
