# The address manager, verified

A Dafny model of the wallet's address manager (`waddrmgr`), of the key wrapper it relies on
(`snacl`) and of the wallet's start, stop and load protocol (`wallet`), with proofs about every
input, every run and every reachable state of that model.

    dafny verify dfyconfig.toml

## What is modelled

The manager keeps a hierarchy of secrets: a passphrase opens a master key, the master key opens a
crypto key, the crypto key opens account keys, and account keys derive address keys. `Lock` and
`Unlock` move the hierarchy between sealed and clear form. While locked, addresses are derived from
public keys and queued; the next successful `Unlock` gives each of them its private key. Everything
lives in bbolt buckets as hand-laid byte rows with uint32 offset arithmetic.

| module | what it holds |
|---|---|
| `ByteCodec`, `Errors`, `Primitives` | bytes, fixed-width integers with Go's wrap-around, outcomes (value, error, run-time fault), the foreign primitives and their laws |
| `Snacl` | stored scrypt parameters, key derivation, digest comparison, nonce framing |
| `AccountRow`, `WatchOnlyRow`, `AddressRow`, `Layouts` | the byte layouts and their parsers, as written and as meant |
| `AccountTable`, `AccountStore`, `ScopeStore` | the account table, its runs, the byte buckets that refine it, and the creation of those buckets |
| `AddressStore`, `ChainedStore` | address rows and the two account indexes over them; storing a batch of addresses and its account row in one transaction |
| `Keyring`, `KeyringInvariant`, `KeyringLocking`, `KeyringAddresses`, `KeyringRuns`, `KeyringFrame`, `KeyringEffects`, `Passphrase`, `AllocationRuns`, `IndexReuse`, `IndexOrder` | the manager as a value, its invariant, lock and unlock, address allocation, whole runs with reopening, what each operation does and leaves alone, passphrase checks and address indices over them |
| `Manager`, `ManagedAddress` | the manager and address objects with their loops and buffers, proved against the value model |
| `Allocation` | choosing address indices, transactions with commit and rollback |
| `ScopeCreation`, `ScopeIndex`, `Genesis` | new scopes, the reverse maps, Create, Open and the first Unlock |
| `Lifecycle` | the two workers, the quit channel, the wait group and the loader |

`Keyring` states each manager operation as a function (`LoadAccount`, `DeriveAddress`,
`CacheAddress`, `LockOf`, `PrivKey`) or, for `Unlock`, whose result depends on the order in which Go
ranges over maps, as the relation `Unlocks`. The classes in `Manager` and `ManagedAddress` implement
them with the source's loops. Managed addresses are shared by reference in the source (cache, queue
and callers hold one object), so the model keeps them in an explicit heap and names them by index.

### Assumptions

- Cryptography is any record of functions satisfying `Primitives.Lawful`: Open undoes Seal with 16
  bytes of overhead, scrypt yields 32 bytes, parsing a printed extended key gives it back, a printed
  key has at most 128 characters, neutering commutes with non-hardened derivation (BIP 32, "Private
  parent key -> public child key"), and a signature made under an extended key verifies against its
  point. `Primitives.LawfulIsSatisfiable` exhibits one, and `Genesis.CreateIsPossible` shows that a
  created store, where the run theorems start, exists over it.
- `parse(text(k)) == Some(k)` is assumed of every extended key. The source derives with `DeriveNonStandard`,
  whose private children may lack leading zero bytes that printing pads; for such a key the hardened children
  of the key in memory and of the stored key differ, and what is said of accounts created later does not apply.
- Collision resistance is assumed only of the passphrases that are actually tried. Run theorems ask
  `KeyringInvariant.OnlyMaster` (refused, or derives the true master key) of each passphrase given to
  Unlock; the passphrase a store was created with has it by construction (`Genesis.OwnPassphrase`).
  `Passphrase.HashSeparates` and `Passphrase.SlowSeparates` speak of the passphrases tried under salts
  of 32 bytes, and `Passphrase.EmptyIsHarmless` says nothing unless the empty one is tried.
- Random reads are parameters (`Prng`, `Entropy`): each delivers at least the bytes asked for, or fails.
- bbolt's limits are those of its `Put`: keys of 1 to 32768 bytes, values of at most 2^31 - 2 bytes.
- A slice's capacity is taken to be its length: a slice expression beyond it is a `Fault`.

### Where the code departs from its evident intent

Each place is modelled as written and as meant, with the exact condition under which they agree.

- The chained-address buffer has length 0, so serialising faults (`AddressRow.ChainedAsWrittenFaults`).
- The address row guard is `!= 18`: a row is read back iff it has no raw data (`AddressRow.RowAsWrittenRoundTrip`).
- `putChainedAddress` reads the account row from the address bucket and always fails (`AddressStore.AdvanceAsWrittenFails`).
- `nextAddresses` derives child `i`, the loop counter, and retries an invalid one without end: it returns
  the right keys iff the request starts at 0 and its children are valid (`Allocation.LoopCounterDerivation`,
  `Allocation.DerivedAsWrittenEnds`).
- Its mismatch error is unconditional: only an empty request returns without error, and its commit callback
  then faults (`Allocation.AsWrittenNeverAllocates`).
- The watch-only reader skips the fingerprint: right iff the row is blank but for a key below 2^32 bytes
  (`WatchOnlyRow.AsWrittenExact`).
- The birthday is written little-endian and read big-endian: right iff its bytes are a palindrome (`Genesis.BirthdayComesBack`).
- `newManager` never stores the chain parameters: an account then loads only while locked and only in a scope
  whose external type has no address, and no address is ever cached or handed out (`Genesis.WithoutParamsExact`).
  The `net` flag carries the choice; the invariant and the run theorems hold with and without parameters.
- `Unlock` never decrypts the script key that `Create` generated and sealed: in every state of every run the
  one in memory is blank (`KeyringFrame.ScriptKeyStaysBlank`), so it is the generated one iff that is all zeros
  (`Genesis.ScriptKeyNeverComesBack`).
- `NewScopedKeyManager` writes no last account, so `NewAccount` means account 0 (`AccountTable.MissingCounterMeansZero`).

The proofs also settle some behaviour that the source does not announce.

- With an empty passphrase `append` reuses the salt's array, so clearing the concatenation clears the salt.
  Any Unlock of an unlocked manager with the empty passphrase does this although it is refused
  (`Passphrase.EmptyTryClearsSalt`), and until the manager is reopened every stored hash is then salted with
  zeros (`KeyringFrame.RunSalt`, `Passphrase.HashesAreUnsalted`). If the slow path accepted the empty passphrase,
  the fast check would reject it right after (`Passphrase.EmptyPassphraseClearsSalt`); as `Create` refuses an
  empty one, that takes a collision with the true master key's digest (`Genesis.AcceptedCollides`).
- `lock` clears clear-text keys only of addresses in a scope's cache (`KeyringLocking.LockClearsExactly`): every
  address that an unlocked manager derives by path keeps its clear key over Lock
  (`KeyringAddresses.DerivedKeepsClearKey`).
- The purpose of a scope is not checked, so its hardened offset wraps from 2^31 on (`ScopeCreation.CoinTypeOffsets`).
- Requests on one branch in one transaction all start at the same index: no index is handed out twice
  iff no committed transaction asks a branch twice (`Allocation.TransactExact`, `Allocation.RunReuseExact`).
- An account created anew under its old number starts at index 0 in the database while the manager keeps
  its cached counters; once the manager is reopened the old indices are handed out again
  (`IndexReuse.IndexComesBack`). Exactly: indices of a branch ascend iff no account created anew is loaded
  from its row before a request on that branch rewrites it (`IndexOrder.OrderOverOperations`).
- Script, raw-key, witness-script and taproot-script types have no branch in the address builder and get a
  nil address: an unlocked manager cannot build one, and a locked one cannot store it
  (`KeyringAddresses.BuildExact`, `KeyringAddresses.NextAddressesExact`).
- `createNewWallet` starts a wallet it never registers (`Lifecycle.CreateDoesNotLoad`).
- After an unload a loader can open again iff the database is its own (`Lifecycle.ForeignLoaderCannotReopen`).
- `Start` on a stopped wallet can wait forever for workers that need the mutex it holds
  (`Lifecycle.DeadlockIsReachable`, `Lifecycle.DeadlockIsForever`).

## Model

| member | source | states |
|---|---|---|
| `KeyringRuns.RunOK` | waddrmgr/manager.go:366-511 | In every state of every run of Lock, Unlock, loadAccountInfo, DeriveFromKeyPath, nextAddresses, address caching and eviction, PrivKey, account and scope creation, close and reopen, with or without chain parameters: locked means no account key in memory; unlocked means each is the decryption of its ciphertext and no queue entry is left; every queued entry's account is cached; every address is queued or holds its sealed key and has the type its scope's schema gives its branch; every cache entry is an address of the scope under its own script address, without a clear key while locked; every scope's stored coin-type keys are those of its path, the public one neutered; the script key is blank; every row is on its BIP 44 path; every table is consistent. Of each passphrase tried it asks only that it is refused or derives the true master key |
| `KeyringRuns.StepOK` | waddrmgr/manager.go:350-588 | Each single operation keeps that invariant of manager and database, however it ends |
| `KeyringRuns.ReopenedOK` | waddrmgr/manager.go:728-762 | The manager built by closing and opening at any sound point is sound: locked, blank private keys, nothing cached, the same scopes |
| `KeyringRuns.QueuedNeverLost` | waddrmgr/manager.go:472-503 | An address queued at some point of a run is, at every later point before the manager is closed, the same address with the key of its path, still queued or holding a sealed private key that opens, across failed and successful unlocks |
| `KeyringRuns.RunPersists` | waddrmgr/scoped_manager.go:187-214 | Over any stretch of a run within one manager every address object keeps scope, path, public key and type and never loses its sealed private key |
| `KeyringRuns.NewAccountScopeOK` | waddrmgr/scoped_manager.go:689-737 | NewAccount and NewRawAccount leave every non-imported row of the scope, overwritten ones included, opening to hardened child `account` of the stored coin-type key, and the table consistent |
| `KeyringRuns.NewAccountExact` | waddrmgr/scoped_manager.go:676-738 | On a sound scope account creation succeeds iff the name is allowed, new and at most 32764 bytes, the account's key derives and neuters and two nonces can be read |
| `KeyringEffects.NewAccountEffect` | waddrmgr/scoped_manager.go:635-738 | Over a step of a run: on an unlocked manager, under exactly those conditions, one row with the keys of its path and unused counters, its two index entries and the counter are written under the number after the recorded one or the given one; otherwise, or while locked, nothing changes |
| `KeyringEffects.NewAccountErrors` | waddrmgr/scoped_manager.go:676-738 | The error of a refused creation, in the order of the checks: bad name, duplicate name, underivable key, unreadable nonce, row too long |
| `KeyringRuns.NewScopeOK` | waddrmgr/manager.go:513-588 | NewScopedKeyManager keeps the invariant of manager and database, whether it creates the scope or fails |
| `KeyringEffects.NewScopeEffect` | waddrmgr/manager.go:513-588 | Over a step of a run: on an unlocked manager a new scope is created, sound and with exactly the default and the imported account, iff its keys derive and four nonces can be read, and is then listed with its schema and nothing cached; otherwise nothing changes |
| `KeyringLocking.LockOK` | waddrmgr/manager.go:366-393 | lock re-establishes the locked invariant from any point of an unlock, half-drained queues included |
| `KeyringEffects.LockEffect` | waddrmgr/manager.go:350-393 | In every run, after Lock: locked, master and crypto keys and hash zero, no cached account with a private key, no cached address with a clear key, and nothing else changed |
| `KeyringEffects.LockedIsCleared` | waddrmgr/manager.go:366-393 | The same holds in every locked state of every run, whatever was derived, loaded or cached since |
| `KeyringEffects.LockAnswer` | waddrmgr/manager.go:350-364 | Lock succeeds iff the manager is neither watching-only nor locked; otherwise it reports which and changes nothing |
| `KeyringLocking.LockClearsExactly` | waddrmgr/manager.go:366-393 | An address has no clear-text key after lock iff it had none before or is in some scope's cache |
| `KeyringAddresses.DerivedKeepsClearKey` | waddrmgr/manager.go:366-393 | On a sound unlocked manager every address derived by path from a cached account still holds the private key of its path in clear after lock, while PrivKey refuses it |
| `KeyringLocking.UnlockOK` | waddrmgr/manager.go:406-511 | Unlock keeps the invariant whether it succeeds or fails |
| `KeyringLocking.FailedUnlockIsLocked` | waddrmgr/manager.go:421-503 | Every Unlock that fails for any reason but watching-only ends locked with everything cleared that lock clears: locking again changes nothing |
| `KeyringLocking.UnlockVerdict` | waddrmgr/manager.go:429-503 | On a locked sound manager Unlock succeeds iff the derived key has the stored digest and a nonce can be read for each queued address; a key with another digest is a wrong passphrase, a failing scrypt or nonce a crypto error; it never faults |
| `KeyringLocking.UnlockDeliversKeys` | waddrmgr/manager.go:472-509 | A successful unlock empties every queue; every address then holds a sealed key, and each that was queued a clear key, whose public key is the address's stored one |
| `KeyringLocking.FilledOK` | waddrmgr/manager.go:480-497 | The key the queue loop stores in an address is the private key of that address's path |
| `KeyringLocking.UnfilledStaysQueued` | waddrmgr/manager.go:472-503 | When the queue loop stops early, an address it did not reach is still in the remaining queue |
| `KeyringLocking.LockThenUnlockRestores` | waddrmgr/manager.go:350-511 | Lock and then any successful Unlock give back the same crypto key, the same cached accounts with their keys and the same PrivKey answer for every address |
| `KeyringLocking.PrivKeyAnswer` | waddrmgr/address_managed.go:86-106 | On an unlocked sound manager PrivKey answers with the private key of the address's path, whatever is cached |
| `KeyringEffects.PrivKeyEffect` | waddrmgr/address_managed.go:86-106 | PrivKey is refused while locked; otherwise it answers with the key of the path, keeps that in the object and touches nothing else |
| `KeyringEffects.AddressSteps` | waddrmgr/scoped_manager.go:495-800 | Deriving, caching, evicting and allocating addresses and asking for a private key change manager and database in a run exactly as the operation does |
| `KeyringEffects.WatchingOnlyRefuses` | waddrmgr/manager.go:350-413 | A watching-only manager refuses Lock, Unlock and PrivKey and does not change |
| `KeyringInvariant.NeuterCommutes` | waddrmgr/scoped_manager.go:160-184 | If the public account key derives branch and index then so does the private one, and the two results have the same point |
| `KeyringInvariant.LoadAccountOK` | waddrmgr/scoped_manager.go:230-331 | loadAccountInfo keeps the invariant, locked or not, for cached, stored, imported and missing accounts, and never faults where chain parameters are set and the scope's types have addresses |
| `KeyringAddresses.LoadAccountExact` | waddrmgr/scoped_manager.go:230-331 | A stored, uncached account of a sound manager loads iff its last external address derives and can be built; what is cached are the keys of its path (the private one only while unlocked), the sealed key, name and counters of its row |
| `KeyringEffects.LoadEffect` | waddrmgr/scoped_manager.go:230-331 | Over a step of a run a stored, uncached account is cached with the keys of its path under exactly those conditions, and otherwise nothing changes |
| `KeyringEffects.LoadRefuses` | waddrmgr/scoped_manager.go:230-331 | An account without a row is not found, the imported one a crypto error; a failed load changes nothing |
| `KeyringInvariant.DeriveAddressOK` | waddrmgr/scoped_manager.go:779-800 | DeriveFromKeyPath keeps the invariant, also when it fails after caching the account, and never faults where chain parameters are set and the scope's types have addresses |
| `KeyringAddresses.DeriveAddressExact` | waddrmgr/scoped_manager.go:779-800 | With the account cached, DeriveFromKeyPath succeeds iff the path derives and an address of the type the schema gives the branch can be built from it; caching the result needs a type with an address in any case |
| `KeyringAddresses.DerivedAddress` | waddrmgr/scoped_manager.go:187-226 | What DeriveFromKeyPath hands out: a new object of scope and path with the public key of the path, internal on branch 1 and of the internal type there, of the external type elsewhere, sealed iff unlocked, without private material when locked |
| `KeyringInvariant.NewAddressOK` | waddrmgr/address_managed.go:211-300 | An address built from a public or private key of its path and validated (re-derived key, public key, sample signature over a random challenge) has that path's public key, and a sealed private key iff the key was private |
| `KeyringAddresses.ValidateVerdict` | waddrmgr/address_managed.go:171-209 | Validation accepts exactly a type with an address, the matching public key and a sample signature that can be made and verifies |
| `KeyringAddresses.BuiltMatchesAccount` | waddrmgr/address_managed.go:243-300 | A private address is built only if the account's own key derives a key with the same public key for its path |
| `KeyringInvariant.ImportedUnreadable` | waddrmgr/scoped_manager.go:230-331 | The imported account's keyless row fails to decrypt and is never cached |
| `KeyringAddresses.NextAddressesDelivers` | waddrmgr/scoped_manager.go:333-493 | A successful nextAddresses (as meant) hands out the number asked for, at the first valid indices from the branch's counter on, each address with the key of its path and the type of its branch, in the scope's cache, queued if locked and sealed otherwise; cached and stored counter both end just past the last index |
| `KeyringAddresses.NextAddressesExact` | waddrmgr/scoped_manager.go:333-493 | On a cached, stored account nextAddresses succeeds iff chain parameters are set, at least one address is asked for, the limit holds, the branch derives and enough children are valid, the schema's type of the branch has an address and, if unlocked, the reads of the batch and of the addresses read back succeed |
| `KeyringAddresses.NextAddressesRefuses` | waddrmgr/scoped_manager.go:357-361 | A request beyond the limit of addresses per account is refused as such and changes nothing |
| `KeyringAddresses.NextAddressesRollsBack` | waddrmgr/scoped_manager.go:333-493 | A request that fails, whatever for, leaves the stored rows as they were |
| `KeyringAddresses.BuildExact` | waddrmgr/address_managed.go:211-300 | An address can be built iff its key is public and chain parameters are set or its type has no address, or its key is private, parameters are set, its type has an address and the two reads succeed: validating a freshly derived key never fails |
| `KeyringAddresses.ReadBackExact` | waddrmgr/scoped_manager.go:446-460 | The comparison of a built address with the one read back never fires on a sound manager: reading back succeeds iff parameters are set and, if unlocked, its own reads succeed |
| `KeyringAddresses.ReadBackVerdict` | waddrmgr/scoped_manager.go:446-460 | On any manager an address read back is accepted iff it can be cached and has the script address and type of the stored one; one that has not is reported and dropped from the cache |
| `KeyringAddresses.NextAddressesOK` | waddrmgr/scoped_manager.go:333-493 | nextAddresses keeps the invariant of manager and database, committed or rolled back |
| `KeyringAddresses.MoveRowOK` | waddrmgr/db.go:953-1011 | Rewriting an account row's counters keeps every row on its path, the tables consistent and all other scopes unchanged |
| `KeyringAddresses.CacheOK` | waddrmgr/scoped_manager.go:495-516 | loadAndCacheAddress of a chained address keeps the invariant |
| `KeyringAddresses.CachedAddress` | waddrmgr/scoped_manager.go:495-516 | loadAndCacheAddress puts exactly the new address into exactly the scope's cache, under its script address |
| `ChainedStore.LoadAndCacheOK` | waddrmgr/scoped_manager.go:495-516 | Fetching an address by its hash, parsing its row and caching it keeps the invariant, whatever bytes the row has |
| `ChainedStore.ReadBackOfBatch` | waddrmgr/scoped_manager.go:446-460 | Reading an address back right after storing it caches exactly the path it was built for, so the reads of the bytes are those of the manager's model |
| `KeyringAddresses.EvictOK` | waddrmgr/scoped_manager.go:619-633 | Dropping an address from the cache, as MarkUsed does, keeps the invariant |
| `KeyringAddresses.EvictDropsOne` | waddrmgr/scoped_manager.go:619-633 | Eviction drops exactly that entry from exactly that scope's cache |
| `KeyringAddresses.PrivKeyOK` | waddrmgr/address_managed.go:86-106 | PrivKey keeps the invariant while it fills the clear-text cache |
| `AllocationRuns.RunNeverReusesIndex` | waddrmgr/scoped_manager.go:348-493 | In every run two successful nextAddresses calls on one branch of one account hand out disjoint, increasing indices, whatever was locked, loaded or rolled back in between, if the account was not created anew or the manager not reopened in between; the condition that is also necessary is that of `IndexOrder.OrderOverOperations` |
| `IndexOrder.OrderOverOperations` | waddrmgr/scoped_manager.go:230-493 | Between any two successful requests on one branch of a run, all indices handed out ascend iff the account is never created anew and then loaded from its row before a request on that branch rewrites it |
| `AllocationRuns.RunGrows` | waddrmgr/scoped_manager.go:230-493 | Over any stretch of a run within one manager cached accounts stay cached and their counters never move back, whatever rows were overwritten |
| `AllocationRuns.OrderExact` | waddrmgr/scoped_manager.go:348-493 | Of two successful requests on one branch all indices of the second are above all of the first iff the counter the second starts from is at or past the one the first left, reopening and overwriting included |
| `AllocationRuns.RunInStep` | waddrmgr/scoped_manager.go:230-493 | While an account is not created anew, its cached and stored counters agree and the stored ones never move back, reopening included |
| `AllocationRuns.NextShape` | waddrmgr/scoped_manager.go:333-493 | However nextAddresses ends, either no row changed and no cached counter moved, or exactly one branch counter of one account moved past the new indices, in cache and row alike |
| `IndexReuse.IndexComesBack` | waddrmgr/scoped_manager.go:660-738 | From every sound unlocked state with an unused account there is a run of four steps (request, create anew, reopen, request) that hands out the same index twice |
| `IndexReuse.OverwriteAndReopenRestart` | waddrmgr/scoped_manager.go:689-737 | Creating an account anew and reopening sets both of its branches back to index 0 |
| `Passphrase.RunHash` | waddrmgr/manager.go:415-440 | In every state of every run an unlocked manager's hash is that of salt plus the last passphrase the slow path accepted; a run that never tries the empty passphrase needs no assumption on the hash |
| `Passphrase.FastAgreesWithSlow` | waddrmgr/manager.go:415-440 | In every unlocked state of every run the fast check accepts a tried passphrase iff scrypt and digest accept it, where hash and slow path each tell the tried passphrases apart |
| `Passphrase.FastAgreesExactly` | waddrmgr/manager.go:415-440 | Where only the hash tells them apart, the fast check accepts exactly the last accepted passphrase, so it agrees with the slow path on all tried ones iff the slow path accepts no other |
| `Passphrase.FastUnlockExact` | waddrmgr/manager.go:415-427 | Unlock on an unlocked manager, in every reachable state: it succeeds iff given the last accepted passphrase, and then changes nothing; any other is reported as wrong and locks; where the slow path tells the tried passphrases apart this is its verdict |
| `Passphrase.EmptyPassphraseClearsSalt` | waddrmgr/manager.go:506-509 | After a slow unlock the fast check accepts the same passphrase iff it was not empty (or the hash cannot tell the old salt from zeros) |
| `Passphrase.EmptyTryClearsSalt` | waddrmgr/manager.go:415-427 | Unlock with the empty passphrase on an unlocked manager leaves the salt all zeros, and is refused and locks unless the hash is that of the bare salt |
| `Passphrase.HashesAreUnsalted` | waddrmgr/manager.go:415-509 | Once an empty passphrase was hashed, at every later point before the manager is reopened the salt is zeros and the hash of an unlocked manager is that of zeros plus the accepted passphrase |
| `KeyringFrame.RunSalt` | waddrmgr/manager.go:415-509 | Over any stretch of a run within one manager the salt is the one it started with, or zeros iff an empty passphrase was hashed in between |
| `KeyringFrame.UnlockHeader` | waddrmgr/manager.go:406-511 | Whatever the outcome of Unlock: parameters and sealed keys stay, the salt is cleared iff an empty passphrase was hashed, nothing fills in the script key, and on a locked manager it succeeds iff it ends unlocked |
| `KeyringFrame.ScriptKeyStaysBlank` | waddrmgr/manager.go:443-450 | In every state of every run of a manager opened with a blank script key the script key is blank |
| `Manager.Manager.Unlock` | waddrmgr/manager.go:406-511 | The object's Unlock, loops and failure branches included, satisfies the relation `Unlocks` between its old and new state for every map iteration order |
| `Manager.Manager.OpenHierarchy` | waddrmgr/manager.go:443-509 | Past the master key: crypto key, every scope and at last the hash, or locked again at the first obstacle |
| `Manager.Manager.DrainQueue` | waddrmgr/manager.go:472-503 | The loop that ranges over a slice while nilling and popping its head sees exactly the queue it started with: on success the queue is empty, on any exit it is the unprocessed suffix and each popped address is filled |
| `Manager.Manager.DeriveQueued` | waddrmgr/manager.go:472-497 | One turn fills the entry's address with the sealed and clear key of its path and touches no other address, or fails on a named obstacle and changes nothing |
| `Manager.Manager.UnlockAccounts` | waddrmgr/manager.go:452-470 | Opens every cached account key of a scope, or stops at one whose ciphertext does not open; queues and other scopes are untouched |
| `Manager.Manager.UnlockScopes` | waddrmgr/manager.go:452-504 | Both inner loops for every scope in any order: all accounts open, all queues empty and one nonce read per queued address, or a named obstacle and a partial drain |
| `Manager.Manager.UnlockScope` | waddrmgr/manager.go:448-503 | Both loops of one scope: on success every cached account is open, the queue is empty and one nonce was read for each of its entries; an error is an obstacle the state already held |
| `Manager.Manager.HashPassphrase` | waddrmgr/manager.go:415-427 | Hashes salt plus passphrase and leaves the salt as the aliased append and the clearing leave it |
| `Manager.Manager.LockUp` | waddrmgr/manager.go:366-393 | The loops over scopes, accounts and cached addresses compute `LockOf`, in any iteration order |
| `Manager.Manager.Lock` | waddrmgr/manager.go:350-364 | Refused on a watching-only or locked manager, unchanged and with that error; otherwise locked, with all keys, hash, account keys and clear keys of cached addresses gone, as `Keyring.Lock` |
| `Manager.Manager.LockAccounts` | waddrmgr/manager.go:366-374 | Drops the private key of every cached account of one scope and nothing else |
| `Manager.Manager.LockAddresses` | waddrmgr/manager.go:376-385 | Clears exactly the addresses in one scope's cache |
| `Manager.Manager.LoadAccountInfo` | waddrmgr/scoped_manager.go:230-331 | The object's new state and result are those of `Keyring.LoadAccount`, error paths included |
| `Manager.Manager.DeriveFromKeyPath` | waddrmgr/scoped_manager.go:779-800 | New state and result are those of `Keyring.DeriveAddress` |
| `Manager.Manager.KeyToManaged` | waddrmgr/scoped_manager.go:187-214 | Allocates the address and queues it iff its key is public |
| `Manager.Manager.NextAddresses` | waddrmgr/scoped_manager.go:333-493 | The object's nextAddresses with its derive, store, read-back, compare and commit loops computes `KeyringAddresses.NextAddresses` |
| `Manager.Manager.ReadBack` | waddrmgr/scoped_manager.go:446-460 | Reads one stored address back, compares it and evicts it on a mismatch, as `KeyringAddresses.ReadBack` |
| `Manager.Manager.OnCommit` | waddrmgr/scoped_manager.go:467-489 | The commit callback's loop caches each address, queues it iff locked, and moves the account's counter |
| `ManagedAddress.ManagedAddress.Unlock` | waddrmgr/address_managed.go:130-151 | Decrypts into the cache only when it is empty and returns a fresh copy of it |
| `ManagedAddress.ManagedAddress.PrivKey` | waddrmgr/address_managed.go:86-106 | Zeroing the copy leaves the cached key as unlock left it: asking again gives the same answer |
| `ManagedAddress.ManagedAddress.Lock` | waddrmgr/address_managed.go:153-159 | Overwrites the clear text with zeros before dropping it; the sealed key stays |
| `Genesis.Create` | waddrmgr/manager.go:135-321 | Refuses an existing namespace and an empty private passphrase, and otherwise succeeds iff every random read, scrypt call and derivation it needs does; the store then holds the three crypto keys it generated (public, private, script) under secret keys of the given salts and costs, the sealed root and its sealed neutered form, and the four default scopes, each sound, consistent and with counter 0; without a root key only the public half |
| `Genesis.CreateDefaultScopes` | waddrmgr/manager.go:263-271 | Succeeds iff the four default scopes derive and their nonces can be read, and creates exactly those scopes; every row holds the key of its path and both indexes are inverse |
| `Genesis.OpenAfterCreate` | waddrmgr/manager.go:611-762 | Opening a created store with its public passphrase succeeds and yields, with or without chain parameters, a locked manager satisfying the run invariant, whose stored parameters accept the creation's private passphrase; no assumption on any other passphrase |
| `Genesis.OpenVerdict` | waddrmgr/manager.go:611-726 | A created store opens iff the passphrase passes the public digest, its key opens the public crypto key and a salt can be read; a refused passphrase is reported as wrong and the creation's own always opens |
| `Genesis.OpenExact` | waddrmgr/manager.go:611-762 | Open on an arbitrary store: it succeeds iff the version is the latest, flag and birthday have their sizes, the public keys and (unless watching only) the private parameters are there, the passphrase passes, a salt can be read and every scope has a schema; the manager is locked, knows the scopes and has nothing cached; a missing namespace and another version have their errors |
| `Genesis.WatchOnlyOpens` | waddrmgr/manager.go:611-762 | A store created without a root key opens with its public passphrase to a watching-only manager without scopes |
| `Genesis.ReopenIsOpen` | waddrmgr/manager.go:611-762 | At every sound state reached from a created store, Open on the stored keys and schemas with that state's rows and scopes gives exactly the reopened manager of the runs |
| `Genesis.CreateOpenUnlock` | waddrmgr/manager.go:135-511 | Create, Open, Unlock with the same passphrases always succeeds, with or without chain parameters, without a random read and without any assumption on other passphrases; private and public crypto key are the ones Create generated, while the script key stays blank, although its sealed form would open |
| `Genesis.ScriptKeyNeverComesBack` | waddrmgr/manager.go:406-511 | In every state of every run of a manager opened on a created store the script key is the one Create generated iff that is all zeros, while its sealed form can be opened throughout |
| `Genesis.AcceptedCollides` | snacl/snacl.go:147-177 | Any passphrase a created store accepts derives a key with the true master key's digest |
| `Genesis.FirstAccountLoads` | waddrmgr/scoped_manager.go:230-331 | After that, account 0 of every default scope loads iff chain parameters are set, its first external child exists and two reads succeed, and its key is that of its path |
| `Genesis.AccountKeyPath` | waddrmgr/manager.go:857-894 | That key is the child m / purpose' / coin_type' / account' of the root, and exists iff that child does, the coin is below 2^31 and the account at most 2^31 - 2 (below purpose 2^31) |
| `Genesis.AddressKeyPath` | waddrmgr/scoped_manager.go:160-184 | An address key is the child branch / index of its account key, and exists iff that child does |
| `Genesis.NewSecretKeyAccepts` | waddrmgr/manager.go:764-777 | A new secret key's stored parameters have the given salt and cost, parse back and accept its own passphrase with the same key |
| `Genesis.WithoutParamsExact` | waddrmgr/manager.go:728-762 | Without chain parameters a stored, uncached account of a sound manager loads iff the manager is locked, the scope's external type has no address and the last external child exists; a path of it derives iff, besides, the branch's type has no address and the child exists; nothing is cached or handed out |
| `Genesis.BirthdayComesBack` | waddrmgr/db.go:605-617 | A birthday survives little-endian write and big-endian read iff its eight bytes are a palindrome |
| `ScopeCreation.CreateScopeOK` | waddrmgr/manager.go:779-855 | A created scope's coin-type key and default row open to the keys of their paths, the public halves to their neutered forms and so to no private key; it has exactly the default account, unused, and the imported one, under their names; only a given counter is recorded |
| `ScopeCreation.CreateScopeExact` | waddrmgr/manager.go:779-855 | Creating a scope succeeds iff its coin-type, account and both branch keys derive, the first two neuter, and four nonces can be read |
| `ScopeCreation.CoinTypeOffsets` | waddrmgr/manager.go:857-880 | The coin-type key is the child purpose' / coin_type', for coins below 2^31 only; the purpose's hardened offset wraps from 2^31 on |
| `ScopeIndex.Directory.NewScopedKeyManager` | waddrmgr/manager.go:513-588 | Succeeds iff the scope is new and either the manager is watching-only or it is unlocked, the sealed root opens, the scope's keys derive and four nonces can be read; returns the created scope (without keys when watching-only); each scope stays listed exactly once under its schema's two types; a failure changes nothing |
| `ScopeIndex.Directory.constructor` | waddrmgr/manager.go:750-759 | newManager's loop lists every loaded scope exactly once under each of its types |
| `ScopeIndex.Directory.Reopen` | waddrmgr/manager.go:691-725 | Reopening after committed calls rebuilds the same scope-to-schema map and valid reverse maps |
| `ScopeIndex.LoadScopes` | waddrmgr/db.go:585-634 | The loop over scope buckets returns exactly the stored schemas, reports a missing one, and faults only on one shorter than two bytes |
| `ScopeIndex.ReopenRebuilds` | waddrmgr/manager.go:691-725 | A map that agrees with the stored buckets and schemas is the map that was stored |
| `ScopeIndex.ScopeKeyInjective` | waddrmgr/db.go:1120-1126 | Distinct scopes have distinct bucket keys |
| `ScopeIndex.SchemaRoundTrip` | waddrmgr/db.go:1128-1141 | A schema survives its two-byte form, internal type first |
| `Layouts.SmallLayouts` | waddrmgr/db.go:1120-1141 | A scope key is purpose and coin, a schema its internal and then its external type, a chained address branch and index |
| `AccountTable.RunConsistent` | waddrmgr/scoped_manager.go:635-738 | Over every run of NewAccount and NewRawAccount, overwritten numbers included: rows and id index have one domain, each row's name is its index name and looks up its id, the name index only grows, and "imported" stays on ImportedAddrAccount |
| `AccountTable.NamesUnique` | waddrmgr/account_info.go:67-138 | In a consistent table no two accounts share a name |
| `AccountTable.StepInverseExact` | waddrmgr/scoped_manager.go:676-738 | A successful creation keeps the two indexes inverse iff its number was not in use |
| `AccountTable.RunInverseExact` | waddrmgr/scoped_manager.go:635-738 | After any run the indexes are inverse iff no number was handed out twice |
| `AccountTable.GuardedRunIncreases` | waddrmgr/scoped_manager.go:647-674 | With a recorded counter and raw numbers above it, the numbers handed out strictly increase up to MaxAccountNum and none is in use |
| `AccountTable.GuardedRunKeepsInverse` | waddrmgr/scoped_manager.go:647-674 | Under that guard the indexes stay inverse over every run |
| `AccountTable.NewAccountsConsecutive` | waddrmgr/scoped_manager.go:635-658 | NewAccount alone numbers consecutively, whatever fails in between |
| `AccountTable.NewAccountStopsAtMax` | waddrmgr/manager.go:882-894 | At MaxAccountNum NewAccount fails and changes nothing |
| `AccountTable.MissingCounterMeansZero` | waddrmgr/db.go:240-259 | With no recorded counter NewAccount means account 0 and keeps the indexes inverse iff account 0 has no row |
| `AccountTable.UnguardedRunRepeatsANumber` | waddrmgr/scoped_manager.go:660-674 | Raw accounts 5 and 3 followed by two NewAccount calls hand out 5, 3, 4, 5 and break the inverse |
| `AccountTable.NewRowHolds` | waddrmgr/scoped_manager.go:689-737 | A created row's private half opens to the hardened child `account` of the coin-type key, its public half to that key neutered |
| `AccountTable.HardenedOffset` | waddrmgr/manager.go:882-894 | Exactly accounts up to 2^31 - 2 with a hardened child have a key, and their offset never wraps; a higher number is refused as such |
| `AccountTable.RawNamesDistinct` | waddrmgr/scoped_manager.go:660-674 | Raw account names are distinct for distinct numbers and never a reserved name |
| `AccountTable.StorableExact` | waddrmgr/account_info.go:29-45 | A sealed row can be stored iff its name has at most 32764 bytes |
| `AccountStore.ScopeBucket.UpdateAll` | waddrmgr/scoped_manager.go:635-738 | On every run of requests the byte buckets refine the table's run and the same numbers are handed out |
| `ScopeStore.CreateManagerKeyScope` | waddrmgr/manager.go:779-855 | From empty buckets the writes of createManagerKeyScope (coin-type keys, counter, default and imported row) end, error by error, as the created scope's value does, and the bytes then refine it |
| `ScopeStore.CreateAndRun` | waddrmgr/manager.go:779-855 | A scope created on bytes, then any run of NewAccount and NewRawAccount: creation succeeds iff the keys derive and four nonces can be read, and the bytes refine the table's run all the way |
| `AccountStore.ScopeBucket.Update` | walletdb/bdb/db.go:70-91 | One request as a transaction: the buckets refine the table after it, the result is the table's, and any failure restores every byte |
| `AccountStore.ScopeBucket.NewAccountInTx` | waddrmgr/scoped_manager.go:676-738 | newAccount on bytes has the table's outcome, error by error |
| `AccountStore.ScopeBucket.PutAccountInfo` | waddrmgr/account_info.go:67-138 | The three writes succeed iff the encoded row and the name key respect bbolt's limits, for sealed keys of any length; they then refine the table's update with the row cut to its stored lengths, which is the row itself whenever it is storable |
| `AccountStore.ScopeBucket.LookupAccount` | waddrmgr/account_info.go:140-157 | Looking a name up in the bytes gives the table's id or not-found |
| `AccountStore.ScopeBucket.FetchAccountInfo` | waddrmgr/account_info.go:159-189 | Fetching a row from the bytes gives the table's row or not-found, never a fault or parse error |
| `AccountStore.ScopeBucket.FetchLastAccount` | waddrmgr/db.go:240-259 | Reads the recorded counter, or 2^32 - 1 when there is none |
| `AccountStore.RefinesUnique` | waddrmgr/account_info.go:67-138 | The bytes determine the table |
| `AccountStore.StrKeyInjective` | waddrmgr/db.go:1149-1155 | Length-prefixed names are distinct keys even when the length is truncated |
| `AccountRow.DecodeDefaultExact` | waddrmgr/account_info.go:308-340 | For every buffer the parser returns a row iff the buffer begins with that row's layout at the true offsets; uint32 wrap never yields a success |
| `AccountRow.DecodedFieldsAreThePrefix` | waddrmgr/account_info.go:308-340 | Re-encoding a parsed row gives back the consumed prefix |
| `AccountRow.SerializeDefaultAccountRow` | waddrmgr/account_info.go:216-240 | Filling the buffer at a moving uint32 offset yields the layout of the fields cut to their uint32 lengths, or faults exactly when the lengths overflow |
| `AccountRow.EnvelopeRoundTrip` | waddrmgr/account_info.go:191-214 | The envelope survives iff 5 plus its length is below 2^32, and faults just above |
| `Layouts.DecodeEnvelopeExact` | waddrmgr/account_info.go:201-214 | From arbitrary bytes an envelope is read iff header and length are there; a short buffer is an error |
| `AccountRow.StoredRowRoundTrip` | waddrmgr/account_info.go:191-340 | A row survives both encoders and both decoders iff 25 plus its field lengths is below 2^32 |
| `AccountRow.StoredRowInjective` | waddrmgr/account_info.go:191-240 | Distinct rows have distinct encodings |
| `Layouts.AccountLayout` | waddrmgr/account_info.go:216-240 | The row offset by offset: sealed public key, sealed private key, external and internal counter, name |
| `Layouts.EnvelopeLayout` | waddrmgr/account_info.go:191-199 | The envelope offset by offset: kind, length, row |
| `WatchOnlyRow.WatchRowRoundTrip` | waddrmgr/account_info.go:242-306 | The reader with the fingerprint gives a stored row back iff its key and name are shorter than 2^32 bytes |
| `WatchOnlyRow.AsWrittenExact` | waddrmgr/account_info.go:342-401 | The reader as written gives a stored row back iff fingerprint, counters, name and schema are all blank and the key is shorter than 2^32 bytes |
| `AddressRow.DecodePayloadExact` | waddrmgr/db.go:695-855 | For every type byte and buffer the dispatching parser returns a payload iff the type is its own and the buffer carries its layout (of the witness secret flag only whether it is 1) |
| `AddressRow.DecodePairExact` | waddrmgr/db.go:731-796 | Two length-prefixed fields are read iff they stand at the true offsets |
| `AddressRow.SerializePair` | waddrmgr/db.go:716-826 | The three writers fill their buffers with head and fields, or fault exactly when the truncated lengths overflow |
| `AddressRow.ChainedAsWrittenFaults` | waddrmgr/db.go:688-693 | Serialising a chained address as written faults |
| `AddressRow.RowRoundTrip` | waddrmgr/db.go:857-885 | With the guard as meant the row envelope survives iff 18 plus its raw length is below 2^32 |
| `Layouts.DecodeRowExact` | waddrmgr/db.go:869-885 | From arbitrary bytes (with the guard as meant) a row is read iff its 18 header bytes and its raw data are there; a short buffer is an error |
| `AddressRow.RowPieces` | waddrmgr/db.go:857-867 | The row offset by offset: kind, account, time, status, length, raw data |
| `AddressRow.RowAsWrittenRoundTrip` | waddrmgr/db.go:869-885 | With the guard as written it survives iff it has no raw data |
| `AddressRow.StoredPayloadComesBack` | waddrmgr/db.go:1041-1077 | A stored row of any kind is fetched as the same variant with the same fields |
| `AddressStore.RunIndexExact` | waddrmgr/db.go:887-933 | After any sequence of putAddress rows, forward index and nested buckets agree, and the nested buckets are exact iff no address was ever put under two accounts |
| `AddressStore.PutKeepsIndex` | waddrmgr/db.go:887-933 | One store keeps the indexes in agreement |
| `AddressStore.PutKeepsExactness` | waddrmgr/db.go:887-933 | It keeps the nested buckets exact iff the address is new or stays with its account |
| `AddressStore.IterationIsComplete` | waddrmgr/db.go:636-672 | Iteration never reports a missing address, visits every row of the account, and nothing else while no address moved |
| `AddressStore.AddressBuckets.CountAddresses` | waddrmgr/scoped_manager.go:838-847 | The counting callback fails iff a nested entry has no readable row, else counts the entries as a uint32 |
| `AddressStore.AddressBuckets.PutAddress` | waddrmgr/db.go:916-933 | Stores the row so that fetching it gives the payload, keeps the indexes, and fails without change iff the value is too long |
| `AddressStore.AddressBuckets.FetchAddressByHash` | waddrmgr/db.go:1041-1077 | On a store built by putAddress succeeds iff the address has a row, with that row's payload, and never faults |
| `AddressStore.AdvanceChangesOneCounter` | waddrmgr/db.go:953-1011 | Rewriting a stored account row changes exactly the branch's counter, to index plus one, and no other field |
| `AddressStore.AdvanceAsWrittenFails` | waddrmgr/db.go:953-1011 | Looking the account row up in the address bucket fails on every store |
| `ChainedStore.AdvanceAccount` | waddrmgr/db.go:953-1011 | On bytes, as meant: reads the account row, moves the branch's counter and stores the row again, so that the buckets refine the moved counter; fails without change iff the account has no row |
| `ChainedStore.PutChainedAddress` | waddrmgr/db.go:935-1012 | Stores the address row with its index entries and then the account row; the address stays behind when the account has no row |
| `ChainedStore.StoreBatch` | waddrmgr/scoped_manager.go:420-445 | A batch in one transaction: all addresses are stored and the account buckets refine the counter move nextAddresses commits, or every byte of both is restored |
| `ChainedStore.BatchPathsComeBack` | waddrmgr/db.go:1034-1077 | Each address of a stored batch whose hash is not used again is read back by its hash as its path |
| `AddressStore.StoredPathComesBack` | waddrmgr/db.go:1034-1077 | A chained address stored under its account, branch and index is read back as that path, and storing another address does not change it |
| `Allocation.ChooseIndices` | waddrmgr/scoped_manager.go:370-396 | The nested loops, deriving at the next index, choose the first valid children and end just past the last |
| `Allocation.FirstAscends` | waddrmgr/scoped_manager.go:370-396 | The chosen indices are as many as asked for, valid and strictly increasing |
| `Allocation.FirstSkipsOnlyInvalid` | waddrmgr/scoped_manager.go:370-396 | No valid child between the start and the last chosen index was skipped |
| `Allocation.FirstExact` | waddrmgr/scoped_manager.go:370-396 | The search finds a list iff it is that many valid children from the start on, ascending, with only invalid ones in between |
| `Allocation.ChooseExact` | waddrmgr/scoped_manager.go:348-396 | A request gets exactly those of its branch within the limit; beyond the limit it is refused as such |
| `Allocation.LimitIsExact` | waddrmgr/scoped_manager.go:357-361 | The limit test cannot wrap while the stored index is within MaxAddressesPerAccount |
| `Allocation.RunsOutExact` | waddrmgr/scoped_manager.go:370-396 | The search runs out of uint32 indices iff, after fewer valid children than asked for, every child up to the end of the range, the hardened half included, is invalid |
| `Allocation.StoreAllMovesOneCounter` | waddrmgr/db.go:935-1012 | Storing a batch moves one counter of the account row, to just past the last index |
| `Allocation.TransactKeepsStep` | waddrmgr/scoped_manager.go:348-493 | Committing one request per branch leaves persisted and cached counters equal, moves them forward past what was handed out, and changes no other field |
| `Allocation.RunNeverReuses` | waddrmgr/scoped_manager.go:348-493 | Over every run of transactions of which no committed one asks a branch twice, the counters agree and each branch's indices strictly increase |
| `Allocation.SameBranchTwiceRepeats` | waddrmgr/scoped_manager.go:467-490 | Any two requests on one branch of a committed transaction share their first index, whatever their sizes |
| `Allocation.TransactExact` | waddrmgr/scoped_manager.go:467-490 | In a committed transaction the index lists of any two requests of one branch are disjoint iff no branch is asked twice |
| `Allocation.RunReuseExact` | waddrmgr/scoped_manager.go:348-493 | Over every run of transactions, committed or rolled back, no index of a branch is handed out twice iff no committed transaction asks a branch twice |
| `Allocation.SameBranchTwiceCommits` | waddrmgr/scoped_manager.go:467-490 | Such a transaction does commit: two requests for one external address on a fresh account both get index 0 |
| `Allocation.LoopCounterDerivation` | waddrmgr/scoped_manager.go:370-405 | The loop as written returns every address with the key of its recorded index iff the request starts at index 0 and its children are all valid, where distinct indices give distinct children |
| `Allocation.DerivedAsWrittenEnds` | waddrmgr/scoped_manager.go:370-405 | The loop as written returns iff its children are all valid, and runs forever iff the first that is not is an invalid one |
| `Allocation.AsWrittenNeverAllocates` | waddrmgr/scoped_manager.go:420-460 | As written a call returns without error iff it asks for no addresses, and then the commit callback faults: no transaction ends well |
| `Snacl.StoredKeyRecovers` | snacl/snacl.go:98-203 | A secret key marshalled, unmarshalled and derived with its passphrase recovers the same key for every signed 64-bit N, R, P |
| `Snacl.ParamsRoundTrip` | snacl/snacl.go:98-141 | Stored parameters parse back to the same parameters |
| `Snacl.ParamBytesOnto` | snacl/snacl.go:118-141 | Re-encoding any parsed 88-byte block gives the block back |
| `Layouts.ParamLayout` | snacl/snacl.go:98-116 | The block offset by offset: salt, digest, N, R, P |
| `Snacl.ConstantTimeCompare` | snacl/snacl.go:211-222 | The xor-or loop over bytes and the borrow of v - 1 in 32 bits return 1 iff the slices are equal |
| `Snacl.SecretKey.Marshal` | snacl/snacl.go:98-116 | Filling the buffer field by field gives bytes that parse back to the parameters |
| `Snacl.SecretKey.Unmarshal` | snacl/snacl.go:118-141 | Accepts exactly 88 bytes and then holds the parameters those bytes encode |
| `Snacl.SecretKey.DeriveKey` | snacl/snacl.go:147-177 | Succeeds iff the derived key's digest is the stored one; the key is overwritten even when rejected |
| `Snacl.NewSecretKey` | snacl/snacl.go:179-203 | A key is returned iff the salt can be read and scrypt succeeds, with the error otherwise; its parameters hold that salt and accept the passphrase it was made from |
| `Snacl.SecretKey.Zero` | snacl/snacl.go:143-145 | Overwrites the key with zeros |
| `Snacl.DecryptUndoesEncrypt` | snacl/snacl.go:36-61 | Decrypting what was encrypted under the same key gives the message back |
| `Lifecycle.Safety` | wallet/loader.go:181-264 | In every state of every run: the wait group counts the unfinished workers; a closed database has no unfinished worker; no worker is done while its quit channel is open; the callbacks called so far are a prefix of those registered by the steps of the run, in order and each once, and all of them whenever a wallet is loaded |
| `Lifecycle.CallbacksExact` | wallet/loader.go:223-264 | Every call, with its wallet: those registered while a wallet is loaded are called with it, the others at the next load with the wallet being loaded, in order, and no other call is made |
| `Lifecycle.UnloadEnds` | wallet/loader.go:230-252 | If the loader's own database cannot be closed everything stays loaded; otherwise wallet and database are cleared, its own database is closed and a caller's left open |
| `Lifecycle.IdleLoader` | wallet/loader.go:122-252 | An idle loader can open or create iff nothing is loaded and there is a database to open, and unload iff something is loaded |
| `Lifecycle.FailuresLoadNothing` | wallet/loader.go:122-221 | A failing open or create loads nothing, starts no worker, calls nothing back and leaves a caller's database alone |
| `Lifecycle.Reachable` | wallet/wallet.go:39-140 | Every reachable state satisfies the full invariant of wallets, handles, workers and loader |
| `Lifecycle.StepOK` | wallet/wallet.go:39-140 | Each step of a caller or a worker keeps that invariant |
| `Lifecycle.UnloadIsNeverStuck` | wallet/loader.go:230-252 | While UnloadWallet waits, the wait is over or a worker of the wallet can take a step that brings its end closer |
| `Lifecycle.UnloadKeepsProgress` | wallet/loader.go:230-252 | Nothing undoes that progress: each step of the wallet's workers is exactly one less to take, no step of anyone else changes their number, and the wait ends only when no worker is left |
| `Lifecycle.CreateDoesNotLoad` | wallet/loader.go:122-179 | createNewWallet starts two workers but loads nothing and runs no callback, so nothing can be unloaded |
| `Lifecycle.ForeignLoaderCannotReopen` | wallet/loader.go:230-252 | After an unload that clears the wallet an open can start iff the loader opens its own database; over a caller's database none is left |
| `Lifecycle.DeadlockIsForever` | wallet/wallet.go:39-59 | Once Start waits on a stopped wallet while a worker has not read its quit channel, no step leaves that state |
| `Lifecycle.RestartGoesOnOtherwise` | wallet/wallet.go:39-59 | In every other state of a waiting Start it finishes or an old worker brings it closer, and no late worker appears |
| `Lifecycle.RestartKeepsProgress` | wallet/wallet.go:39-59 | Nothing undoes that progress: each step of the old workers is exactly one less to take, no other step changes their number or makes a worker late, and the wait ends only when none is left |
| `Lifecycle.DeadlockIsReachable` | wallet/wallet.go:39-59 | Open, load, stop and start before the workers are scheduled reaches it |

## Left out

- Script and taproot addresses in memory: their unlock decrypts the clear-text field and is not in working form; only their rows are modelled.
- Watch-only accounts in the table, lock and unlock models: nothing creates one; only their row is modelled.
- Imported addresses in memory: only their rows and index are modelled.
- `privKeyCache`: it is allocated but never read or written.
- The last external address of an account: it is kept for display only.
- Reads of uncommitted rows into the caches: each operation is its own transaction, so a cache never holds a row that was later rolled back by an enclosing one; `Allocation` treats several requests per transaction.
- KeyringAddresses.CacheOK: takes the path of the address as given; `ChainedStore.LoadAndCacheOK` fetches and parses the row. `KeyringRuns` carries account rows and counters only.
- Concurrent use of one manager: every operation holds its mutex, so runs are sequences of whole operations; a lock or unlock between nextAddresses and its commit callback is not modelled.
- Concurrent Start and Stop on one wallet without the loader's mutex.
- The timed re-lock of the wallet's locker and its channels' contents.
- Allocation.ChooseIndices: running out of uint32 indices is a fault, where the source would wrap; `Allocation.RunsOutExact` says exactly when, and that takes 2^31 invalid children in a row.
- bbolt, files, migrations, the transaction store, the chain client, the RPC server, configuration, prompts and TLS keys: I/O around the modelled core.
