/** The foreign primitives (scrypt, SHA-2, NaCl secretbox, BIP 32 extended keys,
    secp256k1) as a record of arbitrary functions.  Every theorem of the project
    quantifies over all records that satisfy Lawful; nothing else is assumed of them.
 */
module Primitives {
  import opened ByteCodec

  const KEY_SIZE: nat := 32
  const NONCE_SIZE: nat := 24
  const HARDENED: uint32 := 0x8000_0000

  /** The 77 bytes of an extended key besides its kind, as one number. */
  type KeyMaterial = x: nat | x < Pow256(77)

  /** An hdkeychain.ExtendedKey: whether it is private, and the rest of its contents. */
  datatype ExtKey = ExtKey(isPrivate: bool, material: KeyMaterial)

  /** The result of DeriveNonStandard: hdkeychain.ErrInvalidChild is told apart because
      callers test for it. */
  datatype Derivation = Child(key: ExtKey) | InvalidChild | Refused

  datatype Crypto = Crypto(
    scrypt: (Bytes, Bytes, int, int, int) -> Option<Bytes>,
    sha256: Bytes -> Bytes,
    sha512: Bytes -> Bytes,
    seal: (Bytes, Bytes, Bytes) -> Bytes,          // key, nonce, message
    open: (Bytes, Bytes, Bytes) -> Option<Bytes>,  // key, nonce, box
    child: (ExtKey, uint32) -> Derivation,
    neuter: ExtKey -> Option<ExtKey>,
    text: ExtKey -> Bytes,
    parse: Bytes -> Option<ExtKey>,
    scalar: ExtKey -> Bytes,                       // ECPrivKey().Serialize()
    point: ExtKey -> Bytes,                        // ECPubKey()
    pointOf: Bytes -> Bytes,                       // PrivKeyFromBytes(..).PubKey()
    script: (Bytes, byte) -> Bytes,                // ScriptAddress() of a public key's address
    sign: (byte, Bytes, Bytes) -> Option<Bytes>,   // address type, private key, message
    verify: (byte, Bytes, Bytes, Bytes) -> bool    // address type, public key, message, signature
  )

  ghost predicate HashLaws(c: Crypto) {
    && (forall p, s, n, r, q :: c.scrypt(p, s, n, r, q).Some? ==> |c.scrypt(p, s, n, r, q).value| == KEY_SIZE)
    && (forall b :: |c.sha256(b)| == 32)
    && (forall b :: |c.sha512(b)| == 64)
  }

  ghost predicate BoxLaws(c: Crypto) {
    && (forall k, n, m :: c.open(k, n, c.seal(k, n, m)) == Some(m))
    && (forall k, n, m :: |c.seal(k, n, m)| == |m| + 16)
  }

  /** BIP 32, "Private parent key -> public child key": neutering commutes with
      non-hardened derivation; a public key has no hardened children. */
  ghost predicate ChildLaws(c: Crypto) {
    && (forall k: ExtKey, i: uint32 :: k.isPrivate && c.child(k, i).Child? ==> c.child(k, i).key.isPrivate)
    && (forall k: ExtKey, i: uint32 :: !k.isPrivate && c.child(k, i).Child? ==>
          i < HARDENED && !c.child(k, i).key.isPrivate)
    && (forall k: ExtKey :: c.neuter(k).Some? ==> !c.neuter(k).value.isPrivate)
    && (forall k: ExtKey, i: uint32 :: k.isPrivate && c.neuter(k).Some? && i < HARDENED ==>
          match c.child(k, i)
          case Child(d) => c.neuter(d).Some? && c.child(c.neuter(k).value, i) == Child(c.neuter(d).value)
          case other => c.child(c.neuter(k).value, i) == other)
  }

  ghost predicate KeyLaws(c: Crypto) {
    && (forall k: ExtKey :: c.parse(c.text(k)) == Some(k))
    && (forall k: ExtKey :: |c.text(k)| <= 128)
    && (forall k: ExtKey :: |c.scalar(k)| == 32)
    && (forall k: ExtKey :: k.isPrivate ==> c.point(k) == c.pointOf(c.scalar(k)))
    && (forall k: ExtKey :: k.isPrivate && c.neuter(k).Some? ==> c.point(c.neuter(k).value) == c.point(k))
  }

  /** A signature under an extended key's private key can be made and verifies. */
  ghost predicate SignLaws(c: Crypto) {
    forall t: byte, k: ExtKey, m: Bytes ::
      c.sign(t, c.scalar(k), m).Some? && c.verify(t, c.pointOf(c.scalar(k)), m, c.sign(t, c.scalar(k), m).value)
  }

  ghost predicate Lawful(c: Crypto) {
    HashLaws(c) && BoxLaws(c) && ChildLaws(c) && KeyLaws(c) && SignLaws(c)
  }

  /** A (useless but lawful) instance: the hypotheses of the theorems are satisfiable. */
  function Toy(): (c: Crypto) {
    Crypto(
      (p, s, n, r, q) => if |p| == 32 then Some(p) else None,
      b => if |b| == 32 then b else Zeros(32),
      b => if |b| <= 64 then b + Zeros(64 - |b|) else b[..64],
      (k, n, m) => m + Zeros(16),
      (k, n, m) => if |m| < 16 then None else Some(m[..|m| - 16]),
      (k: ExtKey, i: uint32) => if !k.isPrivate && i >= HARDENED then Refused else Child(k),
      (k: ExtKey) => Some(ExtKey(false, k.material)),
      (k: ExtKey) => ToyText(k),
      (b: Bytes) => if |b| != 78 then None else Some(ToyParse(b)),
      (k: ExtKey) => Zeros(32),
      (k: ExtKey) => Zeros(33),
      (b: Bytes) => Zeros(33),
      (b: Bytes, kind: byte) => b,
      (t: byte, d: Bytes, m: Bytes) => Some([]),
      (t: byte, q: Bytes, m: Bytes, s: Bytes) => true)
  }

  function ToyText(k: ExtKey): Bytes {
    [if k.isPrivate then 1 else 0] + Le(k.material, 77)
  }

  function ToyParse(b: Bytes): ExtKey
    requires |b| == 78
  {
    ExtKey(b[0] == 1, UnLe(b[1..]))
  }

  lemma ToyTextRoundTrip(k: ExtKey)
    ensures ToyParse(ToyText(k)) == k
  {
    LeRoundTrip(k.material, 77);
    assert ToyText(k)[1..] == Le(k.material, 77);
  }

  lemma LawfulIsSatisfiable()
    ensures Lawful(Toy())
  {
    hide Le, UnLe, Pow256, ToyParse, ToyText;
    var c := Toy();
    forall k: ExtKey ensures c.parse(c.text(k)) == Some(k) && |c.text(k)| == 78 {
      ToyTextRoundTrip(k);
      assert |ToyText(k)| == 78 by { ToyTextSize(k); }
    }
    forall k: Bytes, n: Bytes, m: Bytes ensures c.open(k, n, c.seal(k, n, m)) == Some(m) {
      assert (m + Zeros(16))[..|m + Zeros(16)| - 16] == m;
    }
  }

  lemma ToyTextSize(k: ExtKey)
    ensures |ToyText(k)| == 78
  {
  }
}
