/** managedAddress with its real buffers: unlock hands out a copy of the cached clear
    text, PrivKey zeroes that copy, lock zeroes the cache.
 */
module ManagedAddress {
  import opened ByteCodec
  import opened Errors
  import opened Primitives
  import opened Snacl
  import opened Keyring

  class ManagedAddress {
    const scope: KeyScope
    const path: Path
    const pubKey: Bytes
    const kind: byte
    const internal: bool
    var privEnc: Bytes
    var privCT: array<byte>  // nil is the empty array

    ghost function View(): Address
      reads this, privCT
    {
      Address(scope, path, pubKey, kind, internal, privEnc, privCT[..])
    }

    constructor (a: Address)
      ensures View() == a && fresh(privCT)
    {
      scope, path, pubKey, kind, internal, privEnc := a.scope, a.path, a.pubKey, a.kind, a.internal, a.privEnc;
      privCT := new byte[|a.privCT|](i requires 0 <= i < |a.privCT| => a.privCT[i]);
      new;
      assert privCT[..] == a.privCT;
    }

    /** unlock(): decrypts into the cache when it is empty, returns a copy. */
    method Unlock(c: Crypto, key: Bytes) returns (r: Outcome<array<byte>>)
      modifies this`privCT
      ensures View() == UnlockAddress(c, key, old(View())).0
      ensures r.Ok? <==> UnlockAddress(c, key, old(View())).1.Ok?
      ensures r.Ok? ==> fresh(r.value) && r.value != privCT && Ok(r.value[..]) == UnlockAddress(c, key, old(View())).1
      ensures !r.Ok? ==> r.Err? && UnlockAddress(c, key, old(View())).1 == Err(r.code)
      ensures privCT == old(privCT) || fresh(privCT)
    {
      hide Decrypt;
      if |privEnc| == 0 {
        return Err(ErrWatchingOnly);
      }
      if privCT.Length == 0 {
        var d := Decrypt(c, key, privEnc);
        if d == None {
          return Err(ErrCrypto);
        }
        privCT := new byte[|d.value|](i requires 0 <= i < |d.value| => d.value[i]);
        assert privCT[..] == d.value;
      }
      var copied := new byte[privCT.Length](i => 0);
      var at := CopyAt(copied, 0, privCT[..]);
      assert copied[..] == copied[..at] == privCT[..];
      r := Ok(copied);
    }

    /** PrivKey(): zeroing the copy leaves the cached key as unlock left it, so asking again
        gives the same answer. */
    method PrivKey(c: Crypto, watchingOnly: bool, locked: bool, cryptoPriv: Bytes) returns (r: Outcome<Bytes>)
      modifies this`privCT
      ensures watchingOnly ==> r == Err(ErrWatchingOnly) && View() == old(View())
      ensures !watchingOnly && locked ==> r == Err(ErrLocked) && View() == old(View())
      ensures !watchingOnly && !locked ==>
                && View() == UnlockAddress(c, cryptoPriv, old(View())).0
                && r == UnlockAddress(c, cryptoPriv, old(View())).1
                && (r.Ok? && r.value != [] ==> UnlockAddress(c, cryptoPriv, View()).1 == r)
    {
      if watchingOnly {
        return Err(ErrWatchingOnly);
      }
      if locked {
        return Err(ErrLocked);
      }
      var copied := Unlock(c, cryptoPriv);
      if !copied.Ok? {
        return copied.PropagateFailure();
      }
      r := Ok(copied.value[..]);
      ZeroBytes(copied.value);
    }

    /** lock(). */
    method Lock()
      modifies this`privCT, privCT
      ensures View() == LockAddress(old(View()))
      ensures old(privCT)[..] == Zeros(old(privCT).Length)
    {
      ZeroBytes(privCT);
      privCT := new byte[0];
    }
  }
}
