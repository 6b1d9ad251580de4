/** snacl: the passphrase-derived master key, its stored parameters, and the
    nonce-prefixed secretbox framing.
 */
module Snacl {
  import opened ByteCodec
  import opened Primitives

  datatype Params = Params(salt: Bytes, digest: Bytes, n: int64, r: int64, p: int64) {
    predicate Sized() { |salt| == KEY_SIZE && |digest| == 32 }
  }

  datatype KeyError = InvalidPassword | ScryptFailed | Malformed | NoRandom

  const MARSHALLED: nat := 88

  // ---------------------------------------------------------------- framing

  function Encrypt(c: Crypto, key: Bytes, nonce: Bytes, msg: Bytes): Bytes {
    nonce + c.seal(key, nonce, msg)
  }

  function Decrypt(c: Crypto, key: Bytes, blob: Bytes): Option<Bytes> {
    if |blob| < NONCE_SIZE then None else c.open(key, blob[..NONCE_SIZE], blob[NONCE_SIZE..])
  }

  lemma DecryptUndoesEncrypt(c: Crypto, key: Bytes, nonce: Bytes, msg: Bytes)
    requires Lawful(c) && |nonce| == NONCE_SIZE
    ensures Decrypt(c, key, Encrypt(c, key, nonce, msg)) == Some(msg)
    ensures |Encrypt(c, key, nonce, msg)| >= NONCE_SIZE
  {
    var blob := Encrypt(c, key, nonce, msg);
    assert blob[..NONCE_SIZE] == nonce;
    assert blob[NONCE_SIZE..] == c.seal(key, nonce, msg);
  }

  // ------------------------------------------------------ parameter encoding

  function CostBytes(p: Params): (b: Bytes)
    ensures |b| == 24
  {
    Le64(ToUnsigned(p.n)) + (Le64(ToUnsigned(p.r)) + Le64(ToUnsigned(p.p)))
  }

  function ParamBytes(p: Params): (b: Bytes)
    requires p.Sized()
    ensures |b| == MARSHALLED
  {
    p.salt + (p.digest + CostBytes(p))
  }

  /** N, R and P of the last 24 bytes, cut off one after the other. */
  function ParseCosts(b: Bytes): (int64, int64, int64)
    requires |b| == 24
  {
    (ToSigned(UnLe64(b[..8])), ToSigned(UnLe64(b[8..][..8])), ToSigned(UnLe64(b[8..][8..])))
  }

  function ParseParams(b: Bytes): (r: Option<Params>)
    ensures r.Some? <==> |b| == MARSHALLED
    ensures r.Some? ==> r.value.Sized()
  {
    if |b| != MARSHALLED then None
    else
      var (n, r, p) := ParseCosts(b[32..][32..]);
      Some(Params(b[..32], b[32..][..32], n, r, p))
  }

  lemma CostsRoundTrip(p: Params)
    ensures ParseCosts(CostBytes(p)) == (p.n, p.r, p.p)
  {
    hide Le64, UnLe;
    var n, r, q := Le64(ToUnsigned(p.n)), Le64(ToUnsigned(p.r)), Le64(ToUnsigned(p.p));
    Seam(n, r + q);
    Seam(r, q);
    Le64Injective(ToUnsigned(p.n), UnLe64(n));
    Le64Injective(ToUnsigned(p.r), UnLe64(r));
    Le64Injective(ToUnsigned(p.p), UnLe64(q));
  }

  /** Parameters survive the store for every signed 64-bit N, R and P. */
  lemma ParamsRoundTrip(p: Params)
    requires p.Sized()
    ensures ParseParams(ParamBytes(p)) == Some(p)
  {
    Seam(p.salt, p.digest + CostBytes(p));
    Seam(p.digest, CostBytes(p));
    CostsRoundTrip(p);
  }

  lemma CostBytesOnto(b: Bytes, p: Params)
    requires |b| == 24 && ParseCosts(b) == (p.n, p.r, p.p)
    ensures CostBytes(p) == b
  {
    assert b[8..] == b[8..][..8] + b[8..][8..];
    assert b == b[..8] + b[8..];
  }

  /** No two stored parameter blocks mean the same parameters. */
  lemma ParamBytesOnto(b: Bytes)
    requires |b| == MARSHALLED
    ensures ParamBytes(ParseParams(b).value) == b
  {
    CostBytesOnto(b[32..][32..], ParseParams(b).value);
    assert b[32..] == b[32..][..32] + b[32..][32..];
    assert b == b[..32] + b[32..];
  }

  // ------------------------------------------------------- digest comparison

  function Xor(a: nat, b: nat): nat {
    if a == 0 && b == 0 then 0 else 2 * Xor(a / 2, b / 2) + (a % 2 + b % 2) % 2
  }

  function Or(a: nat, b: nat): nat {
    if a == 0 && b == 0 then 0 else 2 * Or(a / 2, b / 2) + (if a % 2 == 1 || b % 2 == 1 then 1 else 0)
  }

  lemma {:induction false} XorZero(a: nat, b: nat)
    ensures Xor(a, b) == 0 <==> a == b
  {
    if a != 0 || b != 0 { XorZero(a / 2, b / 2); }
  }

  lemma {:induction false} OrZero(a: nat, b: nat)
    ensures Or(a, b) == 0 <==> a == 0 && b == 0
  {
    if a != 0 || b != 0 { OrZero(a / 2, b / 2); }
  }

  function Pow2(w: nat): nat { if w == 0 then 1 else 2 * Pow2(w - 1) }

  /** Both stay within w bits. */
  lemma {:induction false} WithinBits(a: nat, b: nat, w: nat)
    requires a < Pow2(w) && b < Pow2(w)
    ensures Xor(a, b) < Pow2(w) && Or(a, b) < Pow2(w)
  {
    if a != 0 || b != 0 { WithinBits(a / 2, b / 2, w - 1); }
  }

  /** The xor-or accumulator and the borrow of v - 1 tell equality without branching. */
  method ConstantTimeCompare(x: Bytes, y: Bytes) returns (r: int)
    ensures r == if x == y then 1 else 0
  {
    if |x| != |y| {
      return 0;
    }
    var v := 0;
    var i := 0;
    while i < |x|
      invariant 0 <= i <= |x| && 0 <= v < Pow2(8)
      invariant v == 0 <==> x[..i] == y[..i]
    {
      assert x[..i + 1] == x[..i] + [x[i]] && y[..i + 1] == y[..i] + [y[i]];
      WithinBits(x[i], y[i], 8);
      WithinBits(v, Xor(x[i], y[i]), 8);
      XorZero(x[i], y[i]);
      OrZero(v, Xor(x[i], y[i]));
      v := Or(v, Xor(x[i], y[i]));
      i := i + 1;
    }
    assert x[..i] == x && y[..i] == y;
    var borrowed := (Xor(v, 0) + (W32 - 1)) % W32;
    XorZero(v, 0);
    WithinBits(v, 0, 8);
    r := borrowed / 0x8000_0000;
  }

  // ------------------------------------------------------------- derivation

  /** The key material DeriveKey leaves in the object, and its verdict. */
  function DeriveKeySpec(c: Crypto, params: Params, password: Bytes): (r: (Option<Bytes>, Option<KeyError>))
    ensures r.1 == None ==> r.0.Some?
  {
    match c.scrypt(password, params.salt, params.n, params.r, params.p)
    case None => (None, Some(ScryptFailed))
    case Some(k) => (Some(k), if c.sha256(k) == params.digest then None else Some(InvalidPassword))
  }

  predicate Accepts(c: Crypto, params: Params, password: Bytes) {
    DeriveKeySpec(c, params, password).1 == None
  }

  /** Cuts the fields off the front of the buffer one after the other. */
  method ReadParams(marshalled: Bytes) returns (p: Params)
    requires |marshalled| == MARSHALLED
    ensures p.Sized() && ParamBytes(p) == marshalled
  {
    var rest := marshalled;
    var salt := rest[..KEY_SIZE];
    rest := rest[KEY_SIZE..];
    var digest := rest[..32];
    rest := rest[32..];
    var (n, r, q) := ParseCosts(rest);
    p := Params(salt, digest, n, r, q);
    ParamBytesOnto(marshalled);
  }

  /** The in-memory snacl.SecretKey. */
  class SecretKey {
    var key: array<byte>
    var params: Params

    ghost predicate Valid()
      reads this
    {
      key.Length == KEY_SIZE && params.Sized()
    }

    /** The zero SecretKey with its key allocated, as Unmarshal finds it. */
    constructor Blank()
      ensures Valid() && fresh(key) && key[..] == Zeros(KEY_SIZE)
    {
      key := new byte[KEY_SIZE](i => 0);
      params := Params(Zeros(KEY_SIZE), Zeros(32), 0, 0, 0);
    }

    method Unmarshal(marshalled: Bytes) returns (err: Option<KeyError>)
      requires Valid()
      modifies this`params
      ensures Valid()
      ensures err == if |marshalled| == MARSHALLED then None else Some(Malformed)
      ensures err == None ==> ParamBytes(params) == marshalled
      ensures err != None ==> params == old(params)
    {
      if |marshalled| != MARSHALLED {
        return Some(Malformed);
      }
      params := ReadParams(marshalled);
      err := None;
    }

    method Marshal() returns (b: Bytes)
      requires Valid()
      ensures b == ParamBytes(params)
      ensures ParseParams(b) == Some(params)
    {
      var buf := new byte[MARSHALLED](i => 0);
      var n, r, p := Le64(ToUnsigned(params.n)), Le64(ToUnsigned(params.r)), Le64(ToUnsigned(params.p));
      var at := CopyAt(buf, 0, params.salt);
      at := CopyAt(buf, at, params.digest);
      at := CopyAt(buf, at, n);
      at := CopyAt(buf, at, r);
      at := CopyAt(buf, at, p);
      b := buf[..];
      assert b == buf[..at] == [] + params.salt + params.digest + n + r + p;
      FieldsInOrder(params.salt, params.digest, n, r, p);
      ParamsRoundTrip(params);
    }

    /** The key is overwritten even when the passphrase is then rejected. */
    method DeriveKey(c: Crypto, password: Bytes) returns (err: Option<KeyError>)
      requires Valid() && Lawful(c)
      modifies key
      ensures Valid()
      ensures err == DeriveKeySpec(c, params, password).1
      ensures key[..] == match DeriveKeySpec(c, params, password).0 case Some(k) => k case None => old(key[..])
      ensures err == None <==> exists k :: c.scrypt(password, params.salt, params.n, params.r, params.p) == Some(k)
                                           && c.sha256(k) == params.digest
    {
      var derived := c.scrypt(password, params.salt, params.n, params.r, params.p);
      if derived == None {
        return Some(ScryptFailed);
      }
      var at := CopyAt(key, 0, derived.value);
      assert key[..] == key[..at] == derived.value;
      var same := ConstantTimeCompare(c.sha256(key[..]), params.digest);
      err := if same != 1 then Some(InvalidPassword) else None;
    }

    method Zero()
      requires Valid()
      modifies key
      ensures Valid() && key[..] == Zeros(KEY_SIZE)
    {
      ZeroBytes(key);
    }
  }

  /** NewSecretKey, given what the random source produced for the salt: a failing read and a
      failing derivation return no key. */
  method NewSecretKey(c: Crypto, password: Bytes, salt: Option<Bytes>, n: int64, r: int64, p: int64)
    returns (sk: SecretKey?, err: Option<KeyError>)
    requires Lawful(c)
    ensures err == None <==> sk != null
    ensures err == if salt.None? || |salt.value| != KEY_SIZE then Some(NoRandom)
                   else if c.scrypt(password, salt.value, n, r, p).None? then Some(ScryptFailed) else None
    ensures sk != null ==>
              && fresh(sk) && sk.Valid()
              && sk.params == Params(salt.value, sk.params.digest, n, r, p)
              && Some(sk.key[..]) == c.scrypt(password, salt.value, n, r, p)
              && Accepts(c, sk.params, password)
  {
    if salt.None? || |salt.value| != KEY_SIZE {
      return null, Some(NoRandom);
    }
    var made := new SecretKey.Blank();
    made.params := Params(salt.value, Zeros(32), n, r, p);
    var k := c.scrypt(password, salt.value, n, r, p);
    if k.None? {
      return null, Some(ScryptFailed);
    }
    var at := CopyAt(made.key, 0, k.value);
    assert made.key[..] == made.key[..at] == k.value;
    made.params := made.params.(digest := c.sha256(made.key[..]));
    sk, err := made, None;
  }

  lemma FieldsInOrder(salt: Bytes, digest: Bytes, n: Bytes, r: Bytes, p: Bytes)
    ensures [] + salt + digest + n + r + p == salt + (digest + (n + (r + p)))
  {
    Nest(salt, digest, n + (r + p));
    Nest(salt + digest, n, r + p);
    Nest(salt + digest + n, r, p);
    assert [] + salt == salt;
  }

  method ZeroBytes(b: array<byte>)
    modifies b
    ensures b[..] == Zeros(b.Length)
  {
    var i := 0;
    while i < b.Length
      invariant 0 <= i <= b.Length
      invariant forall j :: 0 <= j < i ==> b[j] == 0
    {
      b[i] := 0;
      i := i + 1;
    }
  }

  /** Go's copy(buf[at:at+len(src)], src); returns the advanced offset. */
  method CopyAt(buf: array<byte>, at: nat, src: Bytes) returns (next: nat)
    requires at + |src| <= buf.Length
    modifies buf
    ensures next == at + |src|
    ensures buf[..next] == old(buf[..at]) + src
    ensures buf[next..] == old(buf[next..])
  {
    next := at + |src|;
    var i := 0;
    while i < |src|
      invariant 0 <= i <= |src|
      invariant buf[..at] == old(buf[..at])
      invariant buf[at..at + i] == src[..i]
      invariant buf[next..] == old(buf[at + |src|..])
    {
      buf[at + i] := src[i];
      assert buf[at..at + i + 1] == buf[at..at + i] + [src[i]];
      i := i + 1;
    }
    assert src[..i] == src;
    assert buf[..next] == buf[..at] + buf[at..next];
  }

  /** A stored secret key re-derives the very key it was created with. */
  lemma StoredKeyRecovers(c: Crypto, password: Bytes, salt: Bytes, n: int64, r: int64, p: int64)
    requires Lawful(c) && |salt| == KEY_SIZE
    requires c.scrypt(password, salt, n, r, p).Some?
    ensures var k := c.scrypt(password, salt, n, r, p).value;
            var params := Params(salt, c.sha256(k), n, r, p);
            && ParseParams(ParamBytes(params)) == Some(params)
            && DeriveKeySpec(c, ParseParams(ParamBytes(params)).value, password) == (Some(k), None)
  {
    var k := c.scrypt(password, salt, n, r, p).value;
    ParamsRoundTrip(Params(salt, c.sha256(k), n, r, p));
  }
}
