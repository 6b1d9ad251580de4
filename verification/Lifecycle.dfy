/** The wallet's two workers, its quit channel and wait group, and the loader that opens,
    unloads and calls back.  Callers are serialised by the loader's mutex (one program
    counter); workers interleave freely with them.
 */
module Lifecycle {
  import opened ByteCodec

  /** A worker goroutine: created, holding its quit channel, past its loop, done. */
  datatype Worker = Ready | Waiting(chan: nat) | Leaving | Done

  /** One Wallet: the handle of its database, its current quit channel, its wait group. */
  datatype Wallet = Wallet(db: nat, quit: nat, wg: nat, first: Worker, second: Worker)

  datatype Pc =
    | Idle
    | Loading(w: nat, next: nat)   // onLoaded's loop over the callbacks
    | Stopped(w: nat)              // UnloadWallet after Stop
    | Waited(w: nat)               // ... after WaitForShutdown
    | Restarting(w: nat)           // Start on a stopped wallet, holding quitMu, waiting

  datatype State = State(
    localDB: bool,
    pc: Pc,
    loaded: Option<nat>,
    db: Option<nat>,
    callbacks: seq<nat>,
    wallets: seq<Wallet>,
    handles: nat,             // database handles opened so far
    closedDbs: set<nat>,
    channels: nat,            // quit channels made so far
    closedChans: set<nat>,
    calls: seq<(nat, nat)>)   // history: the calls of callbacks, each with its wallet

  /** How far a failing open or create came: before it touched the loader's database (the
      directory, the existence check), at opening the database, or after that; a failed open
      then closes the database again, if it can. */
  datatype Failure = Early | NoDatabase | Late(closed: bool)

  datatype Step =
    | OpenFails(how: Failure)
    | OpenStarts
    | CreateFails(how: Failure)
    | CreateStarts
    | Callback
    | FinishLoad
    | RunAfterLoad(fn: nat)
    | UnloadStops
    | UnloadWaits
    | UnloadCloses(ok: bool)
    | UserStops
    | UserRestarts
    | RestartFinishes
    | WorkerReads(w: nat, second: bool)
    | WorkerLeaves(w: nat, second: bool)
    | WorkerDone(w: nat, second: bool)

  function Unfinished(w: Wallet): nat {
    (if w.first.Done? then 0 else 1) + (if w.second.Done? then 0 else 1)
  }

  function Get(w: Wallet, second: bool): Worker { if second then w.second else w.first }

  function Set(w: Wallet, second: bool, k: Worker): Wallet {
    if second then w.(second := k) else w.(first := k)
  }

  /** A fresh Wallet after Start: wg.Add(2) and both goroutines created. */
  function StartFresh(s: State, db: nat): State {
    s.(wallets := s.wallets + [Wallet(db, s.channels, 2, Ready, Ready)], channels := s.channels + 1)
  }

  /** A local loader opens a new handle; otherwise it uses the one it was given. */
  function Opened(s: State): State {
    if s.localDB then s.(db := Some(s.handles), handles := s.handles + 1) else s
  }

  /** Some Start is waiting while it holds the wallet's quit mutex. */
  predicate QuitMuHeld(s: State, w: nat) { s.pc == Restarting(w) }

  ghost predicate Next(s: State, step: Step, s': State) {
    match step
    case OpenFails(how) =>
      && s.pc.Idle? && s.loaded == None
      && (if !s.localDB || how.Early? then s' == s
          else if how.NoDatabase? then s' == s.(db := None)
          else s' == Opened(s).(closedDbs := s.closedDbs + (if how.closed then {s.handles} else {})))
    case OpenStarts =>
      && s.pc.Idle? && s.loaded == None && Opened(s).db.Some?
      && s' == StartFresh(Opened(s), Opened(s).db.value).(pc := Loading(|s.wallets|, 0))
    case CreateFails(how) =>
      && s.pc.Idle? && s.loaded == None
      && (if !s.localDB || how.Early? then s' == s
          else if how.NoDatabase? then s' == s.(db := None)
          else s' == Opened(s))
    case CreateStarts =>
      s.pc.Idle? && s.loaded == None && Opened(s).db.Some? && s' == StartFresh(Opened(s), Opened(s).db.value)
    case Callback =>
      && s.pc.Loading? && s.pc.next < |s.callbacks|
      && s' == s.(calls := s.calls + [(s.callbacks[s.pc.next], s.pc.w)], pc := Loading(s.pc.w, s.pc.next + 1))
    case FinishLoad =>
      s.pc.Loading? && s.pc.next == |s.callbacks| && s' == s.(loaded := Some(s.pc.w), callbacks := [], pc := Idle)
    case RunAfterLoad(fn) =>
      && s.pc.Idle?
      && s' == if s.loaded.Some? then s.(calls := s.calls + [(fn, s.loaded.value)])
               else s.(callbacks := s.callbacks + [fn])
    case UnloadStops =>
      && s.pc.Idle? && s.loaded.Some? && s.loaded.value < |s.wallets|
      && s' == s.(closedChans := s.closedChans + {s.wallets[s.loaded.value].quit}, pc := Stopped(s.loaded.value))
    case UnloadWaits =>
      && s.pc.Stopped? && s.pc.w < |s.wallets| && s.wallets[s.pc.w].wg == 0
      && s' == s.(pc := Waited(s.pc.w))
    case UnloadCloses(ok) =>
      && s.pc.Waited?
      && (if s.localDB && !ok then s' == s.(pc := Idle)
          else s' == s.(closedDbs := s.closedDbs + (if s.localDB && s.db.Some? then {s.db.value} else {}),
                        loaded := None, db := None, pc := Idle))
    case UserStops =>
      && s.pc.Idle? && s.loaded.Some? && s.loaded.value < |s.wallets|
      && s' == s.(closedChans := s.closedChans + {s.wallets[s.loaded.value].quit})
    case UserRestarts =>
      && s.pc.Idle? && s.loaded.Some? && s.loaded.value < |s.wallets| && s.wallets[s.loaded.value].quit in s.closedChans
      && s' == s.(pc := Restarting(s.loaded.value))
    case RestartFinishes =>
      && s.pc.Restarting? && s.pc.w < |s.wallets| && s.wallets[s.pc.w].wg == 0
      && s' == s.(wallets := s.wallets[s.pc.w := Wallet(s.wallets[s.pc.w].db, s.channels, 2, Ready, Ready)],
                  channels := s.channels + 1, pc := Idle)
    case WorkerReads(w, b) =>
      && w < |s.wallets| && Get(s.wallets[w], b).Ready? && !QuitMuHeld(s, w)
      && s' == s.(wallets := s.wallets[w := Set(s.wallets[w], b, Waiting(s.wallets[w].quit))])
    case WorkerLeaves(w, b) =>
      && w < |s.wallets| && Get(s.wallets[w], b).Waiting? && Get(s.wallets[w], b).chan in s.closedChans
      && s' == s.(wallets := s.wallets[w := Set(s.wallets[w], b, Leaving)])
    case WorkerDone(w, b) =>
      && w < |s.wallets| && Get(s.wallets[w], b).Leaving? && s.wallets[w].wg > 0
      && s' == s.(wallets := s.wallets[w := Set(s.wallets[w], b, Done).(wg := s.wallets[w].wg - 1)])
  }

  // -------------------------------------------------------------- the invariant

  ghost predicate WalletOK(s: State, i: nat)
    requires i < |s.wallets|
  {
    && s.wallets[i].wg == Unfinished(s.wallets[i])
    && s.wallets[i].db < s.handles
    && (s.wallets[i].db in s.closedDbs ==> s.wallets[i].wg == 0)
  }

  ghost predicate WalletsOK(s: State) {
    && (forall i :: 0 <= i < |s.wallets| ==> WalletOK(s, i))
    && (forall h :: h in s.closedDbs ==> h < s.handles)
    && (s.db.Some? ==> s.db.value < s.handles)
    && (s.localDB ==> forall i, j :: 0 <= i < j < |s.wallets| ==> s.wallets[i].db != s.wallets[j].db)
    && (!s.localDB ==> s.closedDbs == {})
  }

  /** The wallet the loader is working on is one of the wallets, on the loader's handle,
      which is open. */
  ghost predicate Mine(s: State, w: nat) {
    w < |s.wallets| && (s.localDB ==> s.db == Some(s.wallets[w].db)) && s.wallets[w].db !in s.closedDbs
  }

  ghost predicate LoaderOK(s: State) {
    && (s.loaded.Some? ==> Mine(s, s.loaded.value) && s.callbacks == [])
    && match s.pc
       case Idle => true
       case Loading(w, k) => s.loaded == None && Mine(s, w) && k <= |s.callbacks|
       case Stopped(w) => s.loaded == Some(w)
       case Waited(w) => s.loaded == Some(w) && Mine(s, w) && s.wallets[w].wg == 0
       case Restarting(w) => s.loaded == Some(w)
  }

  predicate Follows(k: Worker, quit: nat) { k.Waiting? ==> k.chan == quit }

  /** A worker that has left its loop was told to: the wallet's quit channel is closed. */
  predicate Told(k: Worker, quit: nat, closed: set<nat>) { k.Leaving? || k.Done? ==> quit in closed }

  ghost predicate ToldOK(s: State) {
    forall i :: 0 <= i < |s.wallets| ==>
      && Told(s.wallets[i].first, s.wallets[i].quit, s.closedChans)
      && Told(s.wallets[i].second, s.wallets[i].quit, s.closedChans)
  }

  /** Workers wait on their wallet's current quit channel, which an unload or a restart
      finds closed. */
  ghost predicate ChansOK(s: State) {
    && (forall i :: 0 <= i < |s.wallets| ==>
          Follows(s.wallets[i].first, s.wallets[i].quit) && Follows(s.wallets[i].second, s.wallets[i].quit))
    && (s.pc.Stopped? || s.pc.Restarting? ==> s.pc.w < |s.wallets| && s.wallets[s.pc.w].quit in s.closedChans)
  }

  ghost predicate Inv(s: State) { WalletsOK(s) && LoaderOK(s) && ChansOK(s) && ToldOK(s) }

  /** NewLoader and NewLoaderWithDB. */
  ghost predicate Init(s: State) {
    s == State(s.localDB, Idle, None, if s.localDB then None else Some(0), [], [],
               if s.localDB then 0 else 1, {}, 0, {}, [])
  }

  lemma InitOK(s: State)
    requires Init(s)
    ensures Inv(s)
  {
  }

  /** The steps that change wallets, handles or the loader's place in them. */
  predicate IsWorker(step: Step) { step.WorkerReads? || step.WorkerLeaves? || step.WorkerDone? }

  lemma WorkerWallets(s: State, step: Step, s': State)
    requires Inv(s) && Next(s, step, s') && IsWorker(step)
    ensures WalletsOK(s')
  {
    hide LoaderOK;
    forall i | 0 <= i < |s'.wallets| ensures WalletOK(s', i) && s'.wallets[i].db == s.wallets[i].db {
      assert WalletOK(s, i);
    }
  }

  lemma CallerWallets(s: State, step: Step, s': State)
    requires Inv(s) && Next(s, step, s') && !IsWorker(step)
    ensures WalletsOK(s')
  {
    forall i | 0 <= i < |s.wallets| ensures s.wallets[i].db < s.handles { assert WalletOK(s, i); }
    forall i | 0 <= i < |s'.wallets| ensures WalletOK(s', i) {
      if i < |s.wallets| {
        assert WalletOK(s, i);
        if step.UnloadCloses? && s.localDB {
          assert i == s.pc.w || s.wallets[i].db != s.wallets[s.pc.w].db;
        }
      }
    }
  }

  lemma WorkerLoader(s: State, step: Step, s': State)
    requires Inv(s) && Next(s, step, s') && IsWorker(step)
    ensures LoaderOK(s')
  {
    hide WalletOK;
  }

  lemma CallerLoader(s: State, step: Step, s': State)
    requires Inv(s) && Next(s, step, s') && !IsWorker(step)
    ensures LoaderOK(s')
  {
    hide Unfinished, WalletsOK, ChansOK;
    forall i | 0 <= i < |s.wallets| ensures s.wallets[i].db < s.handles {
      assert WalletOK(s, i) by { WalletAt(s, i); }
    }
    match step
    case OpenFails(_) => OpeningLoader(s, step, s');
    case CreateFails(_) => OpeningLoader(s, step, s');
    case OpenStarts => OpeningLoader(s, step, s');
    case CreateStarts => OpeningLoader(s, step, s');
    case _ =>
  }

  lemma WalletAt(s: State, i: nat)
    requires WalletsOK(s) && i < |s.wallets|
    ensures WalletOK(s, i)
  {
  }

  lemma OpeningLoader(s: State, step: Step, s': State)
    requires Inv(s) && Next(s, step, s')
    requires step.OpenFails? || step.CreateFails? || step.OpenStarts? || step.CreateStarts?
    ensures LoaderOK(s')
  {
    hide Unfinished, ChansOK, WalletOK;
  }

  lemma StepChans(s: State, step: Step, s': State)
    requires ChansOK(s) && Next(s, step, s')
    ensures ChansOK(s')
  {
  }

  lemma StepTold(s: State, step: Step, s': State)
    requires ToldOK(s) && ChansOK(s) && Next(s, step, s')
    ensures ToldOK(s')
  {
  }

  lemma StepOK(s: State, step: Step, s': State)
    requires Inv(s) && Next(s, step, s')
    ensures Inv(s')
  {
    hide WalletsOK, LoaderOK, ChansOK, ToldOK, Next;
    StepChans(s, step, s');
    StepTold(s, step, s');
    if IsWorker(step) {
      WorkerWallets(s, step, s');
      WorkerLoader(s, step, s');
    } else {
      CallerWallets(s, step, s');
      CallerLoader(s, step, s');
    }
  }

  ghost predicate IsRun(ss: seq<State>, steps: seq<Step>) {
    && |ss| == |steps| + 1 && Init(ss[0])
    && forall i :: 0 <= i < |steps| ==> Next(ss[i], steps[i], ss[i + 1])
  }

  lemma {:induction false} Reachable(ss: seq<State>, steps: seq<Step>, i: nat)
    requires IsRun(ss, steps) && i < |ss|
    ensures Inv(ss[i])
    decreases i
  {
    hide Inv, Next, Init;
    if i == 0 {
      InitOK(ss[0]);
    } else {
      Reachable(ss, steps, i - 1);
      StepOK(ss[i - 1], steps[i - 1], ss[i]);
    }
  }

  // ------------------------------------------------------------- what it gives

  /** In every state of every run: the wait group counts the unfinished workers; a worker
      that may still use its database finds it open; a worker leaves only after its quit
      channel was closed; all callbacks registered so far, and nothing else, were called in
      order of registration, each once, whenever a wallet is loaded, and a prefix of them at
      any time. */
  lemma Safety(ss: seq<State>, steps: seq<Step>, i: nat)
    requires IsRun(ss, steps) && i < |ss|
    ensures var s := ss[i];
            && (forall w :: 0 <= w < |s.wallets| ==> s.wallets[w].wg == Unfinished(s.wallets[w]))
            && (forall w :: 0 <= w < |s.wallets| && s.wallets[w].db in s.closedDbs ==>
                  s.wallets[w].first.Done? && s.wallets[w].second.Done?)
            && (forall w :: 0 <= w < |s.wallets| && s.wallets[w].quit !in s.closedChans ==>
                  !s.wallets[w].first.Done? && !s.wallets[w].second.Done?)
            && Fns(s.calls) <= Registered(steps, i)
            && (s.loaded.Some? ==> Fns(s.calls) == Registered(steps, i))
  {
    hide IsRun, Fns, Registered;
    Reachable(ss, steps, i);
    CallsAreRegistered(ss, steps, i);
    var s := ss[i];
    forall w | 0 <= w < |s.wallets|
      ensures s.wallets[w].wg == Unfinished(s.wallets[w])
      ensures s.wallets[w].db in s.closedDbs ==> s.wallets[w].first.Done? && s.wallets[w].second.Done?
      ensures s.wallets[w].quit !in s.closedChans ==> !s.wallets[w].first.Done? && !s.wallets[w].second.Done?
    {
      assert WalletOK(s, w);
    }
  }

  // ------------------------------------------------------------------- callbacks

  /** The callbacks registered by the first i steps, in order. */
  function Registered(steps: seq<Step>, i: nat): seq<nat>
    requires i <= |steps|
  {
    if i == 0 then []
    else Registered(steps, i - 1) + (if steps[i - 1].RunAfterLoad? then [steps[i - 1].fn] else [])
  }

  /** Those of them that still wait for a wallet: registered while none was loaded, and no
      load finished since. */
  function Pending(ss: seq<State>, steps: seq<Step>, i: nat): seq<nat>
    requires i <= |steps| < |ss|
  {
    if i == 0 || steps[i - 1].FinishLoad? then []
    else if steps[i - 1].RunAfterLoad? && ss[i - 1].loaded == None then Pending(ss, steps, i - 1) + [steps[i - 1].fn]
    else Pending(ss, steps, i - 1)
  }

  function With(fns: seq<nat>, w: nat): seq<(nat, nat)> { seq(|fns|, k requires 0 <= k < |fns| => (fns[k], w)) }

  function Fns(calls: seq<(nat, nat)>): seq<nat> { seq(|calls|, k requires 0 <= k < |calls| => calls[k].0) }

  /** The calls owed by the first i steps: a finished load calls all that wait, with the
      wallet it loads; a registration while a wallet is loaded is called with that wallet. */
  function Owed(ss: seq<State>, steps: seq<Step>, i: nat): seq<(nat, nat)>
    requires i <= |steps| < |ss|
  {
    if i == 0 then []
    else if steps[i - 1].FinishLoad? && ss[i].loaded.Some? then
      Owed(ss, steps, i - 1) + With(Pending(ss, steps, i - 1), ss[i].loaded.value)
    else if steps[i - 1].RunAfterLoad? && ss[i - 1].loaded.Some? then
      Owed(ss, steps, i - 1) + [(steps[i - 1].fn, ss[i - 1].loaded.value)]
    else Owed(ss, steps, i - 1)
  }

  /** The calls made so far are exactly those owed and, while a load is going on, the first
      of those that wait, with the wallet being loaded. */
  ghost predicate CallsOK(ss: seq<State>, steps: seq<Step>, i: nat)
    requires i <= |steps| < |ss|
  {
    var s := ss[i];
    && s.callbacks == Pending(ss, steps, i) && (s.loaded.Some? ==> s.callbacks == [])
    && (s.pc.Loading? ==> s.pc.next <= |s.callbacks|)
    && s.calls == Owed(ss, steps, i) +
                  (if s.pc.Loading? then With(Pending(ss, steps, i), s.pc.w)[..s.pc.next] else [])
  }

  lemma {:induction false} CallbacksExact(ss: seq<State>, steps: seq<Step>, i: nat)
    requires IsRun(ss, steps) && i < |ss|
    ensures CallsOK(ss, steps, i)
    decreases i
  {
    if i == 0 {
      hide Next;
    } else {
      hide Next, Init, Inv, CallsOK;
      CallbacksExact(ss, steps, i - 1);
      Reachable(ss, steps, i - 1);
      LoaderOf(ss[i - 1]);
      CallsStep(ss, steps, i);
    }
  }

  lemma LoaderOf(s: State)
    requires Inv(s)
    ensures LoaderOK(s)
  {
    hide WalletsOK, LoaderOK, ChansOK, ToldOK;
  }

  lemma CallsStep(ss: seq<State>, steps: seq<Step>, i: nat)
    requires 0 < i <= |steps| < |ss| && Next(ss[i - 1], steps[i - 1], ss[i]) && LoaderOK(ss[i - 1])
    requires CallsOK(ss, steps, i - 1)
    ensures CallsOK(ss, steps, i)
  {
    hide Mine;
    var s, owed := ss[i - 1], Owed(ss, steps, i - 1);
    assert owed + [] == owed;
    match steps[i - 1]
    case Callback =>
      var all := With(s.callbacks, s.pc.w);
      assert all[..s.pc.next + 1] == all[..s.pc.next] + [all[s.pc.next]];
      assert owed + all[..s.pc.next] + [all[s.pc.next]] == owed + all[..s.pc.next + 1];
    case FinishLoad =>
      var all := With(s.callbacks, s.pc.w);
      assert all[..s.pc.next] == all;
      assert owed + all + [] == owed + all;
    case RunAfterLoad(fn) =>
      if s.loaded.Some? { assert owed + [(fn, s.loaded.value)] + [] == owed + [(fn, s.loaded.value)]; }
    case OpenStarts => assert With(s.callbacks, |s.wallets|)[..0] == [];
    case _ =>
  }

  /** Every registered callback is owed once, in order, or waits. */
  lemma {:induction false} OwedAreRegistered(ss: seq<State>, steps: seq<Step>, i: nat)
    requires IsRun(ss, steps) && i < |ss|
    ensures Fns(Owed(ss, steps, i)) + Pending(ss, steps, i) == Registered(steps, i)
    decreases i
  {
    hide Next, Init, With, Fns;
    if i == 0 {
      NoFns();
    } else {
      OwedAreRegistered(ss, steps, i - 1);
      CallbacksExact(ss, steps, i - 1);
      FinishLoads(ss[i - 1], steps[i - 1], ss[i]);
      var owed, wait := Owed(ss, steps, i - 1), Pending(ss, steps, i - 1);
      match steps[i - 1]
      case FinishLoad => FnsWith(owed, wait, ss[i].loaded.value);
      case RunAfterLoad(fn) =>
        if ss[i - 1].loaded.Some? {
          FnsOne(owed, fn, ss[i - 1].loaded.value);
          assert wait == [] && Fns(owed) + [] == Fns(owed);
        } else {
          assert Fns(owed) + (wait + [fn]) == Fns(owed) + wait + [fn];
        }
      case _ =>
    }
  }

  lemma NoFns()
    ensures Fns([]) == []
  {
  }

  lemma FnsWith(calls: seq<(nat, nat)>, fns: seq<nat>, w: nat)
    ensures Fns(calls + With(fns, w)) == Fns(calls) + fns
  {
  }

  lemma FnsOne(calls: seq<(nat, nat)>, fn: nat, w: nat)
    ensures Fns(calls + [(fn, w)]) == Fns(calls) + [fn]
  {
  }

  lemma FinishLoads(s: State, step: Step, s': State)
    requires Next(s, step, s')
    ensures step.FinishLoad? ==> s'.loaded.Some?
  {
  }

  lemma CallsAreRegistered(ss: seq<State>, steps: seq<Step>, i: nat)
    requires IsRun(ss, steps) && i < |ss|
    ensures Fns(ss[i].calls) <= Registered(steps, i)
    ensures ss[i].loaded.Some? ==> Fns(ss[i].calls) == Registered(steps, i)
  {
    hide Registered, Owed, Pending;
    CallbacksExact(ss, steps, i);
    OwedAreRegistered(ss, steps, i);
    Reachable(ss, steps, i);
    var s, owed, wait := ss[i], Owed(ss, steps, i), Pending(ss, steps, i);
    if s.pc.Loading? {
      assert Fns(owed + With(wait, s.pc.w)[..s.pc.next]) == Fns(owed) + wait[..s.pc.next];
    } else {
      assert Fns(owed + []) == Fns(owed);
    }
  }

  // ---------------------------------------------------------- unloading finishes

  function Rank(k: Worker): nat {
    match k
    case Ready => 3
    case Waiting(_) => 2
    case Leaving => 1
    case Done => 0
  }

  /** The worker steps still to be taken. */
  function Remaining(w: Wallet): nat { Rank(w.first) + Rank(w.second) }

  /** While UnloadWallet waits, either the wait is over or an unfinished worker of the wallet
      can take a step, and that step brings the wait closer to its end. */
  lemma UnloadIsNeverStuck(s: State, w: nat) returns (step: Step, s': State)
    requires Inv(s) && s.pc == Stopped(w)
    ensures w < |s.wallets| && Next(s, step, s')
    ensures if s.wallets[w].wg == 0 then s'.pc == Waited(w)
            else s'.pc == s.pc && |s'.wallets| == |s.wallets| && Remaining(s'.wallets[w]) < Remaining(s.wallets[w])
  {
    assert WalletOK(s, w);
    if s.wallets[w].wg == 0 {
      step, s' := UnloadWaits, s.(pc := Waited(w));
    } else {
      var b := s.wallets[w].first.Done?;
      step, s' := WorkerStep(s, w, b);
    }
  }

  lemma WorkerStep(s: State, w: nat, b: bool) returns (step: Step, s': State)
    requires ChansOK(s) && w < |s.wallets| && s.wallets[w].wg > 0 && !Get(s.wallets[w], b).Done?
    requires s.pc == Stopped(w) || (s.pc == Restarting(w) && !Get(s.wallets[w], b).Ready?)
    ensures Next(s, step, s') && s'.pc == s.pc && |s'.wallets| == |s.wallets|
    ensures Remaining(s'.wallets[w]) < Remaining(s.wallets[w])
  {
    match Get(s.wallets[w], b)
    case Ready =>
      step, s' := WorkerReads(w, b), s.(wallets := s.wallets[w := Set(s.wallets[w], b, Waiting(s.wallets[w].quit))]);
    case Waiting(_) =>
      step, s' := WorkerLeaves(w, b), s.(wallets := s.wallets[w := Set(s.wallets[w], b, Leaving)]);
    case Leaving =>
      var done := Set(s.wallets[w], b, Done).(wg := s.wallets[w].wg - 1);
      step, s' := WorkerDone(w, b), s.(wallets := s.wallets[w := done]);
  }

  /** A step of one of the wallet's own workers. */
  predicate StepsIn(step: Step, w: nat) { IsWorker(step) && step.w == w }

  /** ... and nothing undoes that progress: each step of the wallet's workers is one less to
      take, and no step of anyone else changes their number. */
  lemma UnloadKeepsProgress(s: State, step: Step, s': State, w: nat)
    requires s.pc == Stopped(w) && w < |s.wallets| && Next(s, step, s')
    ensures w < |s'.wallets|
    ensures Remaining(s'.wallets[w]) == Remaining(s.wallets[w]) - (if StepsIn(step, w) then 1 else 0)
    ensures s'.pc == Stopped(w) || (s'.pc == Waited(w) && s.wallets[w].wg == 0)
  {
  }

  /** createNewWallet starts a wallet but never registers it: nothing is loaded, no
      callback runs, so UnloadWallet has nothing to stop. */
  lemma CreateDoesNotLoad(s: State, s': State)
    requires Inv(s) && Next(s, CreateStarts, s')
    ensures s'.loaded == None && s'.callbacks == s.callbacks && s'.calls == s.calls
    ensures |s'.wallets| == |s.wallets| + 1 && s'.wallets[|s.wallets|].wg == 2
    ensures forall t :: !Next(s', UnloadStops, t)
  {
  }

  /** A failing open or create loads nothing, starts no worker and calls nothing back; it
      leaves a caller's database alone, and the only database it may close is its own new one. */
  lemma FailuresLoadNothing(s: State, step: Step, s': State)
    requires (step.OpenFails? || step.CreateFails?) && Next(s, step, s')
    ensures s'.loaded == None && s'.pc == Idle && s'.wallets == s.wallets
    ensures s'.callbacks == s.callbacks && s'.calls == s.calls
    ensures !s.localDB ==> s' == s
    ensures s'.closedDbs == if s.localDB && step.OpenFails? && step.how.Late? && step.how.closed
                            then s.closedDbs + {s.handles} else s.closedDbs
    ensures s.localDB ==>
              s'.db == if step.how.Early? then s.db else if step.how.NoDatabase? then None else Some(s.handles)
  {
  }

  /** What an idle loader lets its caller start: opening and creating exactly while nothing is
      loaded and there is a database to open, unloading exactly while something is. */
  lemma IdleLoader(s: State)
    requires Inv(s) && s.pc.Idle?
    ensures (exists t :: Next(s, OpenStarts, t)) <==> s.loaded == None && (s.localDB || s.db.Some?)
    ensures (exists t :: Next(s, CreateStarts, t)) <==> s.loaded == None && (s.localDB || s.db.Some?)
    ensures (exists t :: Next(s, UnloadStops, t)) <==> s.loaded.Some?
  {
    if s.loaded == None && (s.localDB || s.db.Some?) {
      var t := StartFresh(Opened(s), Opened(s).db.value);
      assert Next(s, CreateStarts, t);
      assert Next(s, OpenStarts, t.(pc := Loading(|s.wallets|, 0)));
    }
    if s.loaded.Some? {
      var w := s.loaded.value;
      assert Next(s, UnloadStops, s.(closedChans := s.closedChans + {s.wallets[w].quit}, pc := Stopped(w)));
    }
  }

  /** How an unload ends: where its own database cannot be closed everything stays loaded;
      otherwise wallet and database are cleared, the loader's own database is closed and a
      caller's is left open. */
  lemma UnloadEnds(s: State, ok: bool, s': State)
    requires Inv(s) && Next(s, UnloadCloses(ok), s')
    ensures s'.pc == Idle && s'.wallets == s.wallets && s'.callbacks == s.callbacks
    ensures s'.loaded == None <==> ok || !s.localDB
    ensures s'.loaded.Some? ==> s'.loaded == s.loaded && s'.db == s.db && s'.closedDbs == s.closedDbs
    ensures s'.loaded == None ==>
              && s'.db == None && s.loaded.Some?
              && s'.closedDbs == if s.localDB then s.closedDbs + {s.wallets[s.loaded.value].db} else s.closedDbs
  {
    hide WalletsOK, ChansOK;
  }

  /** After an unload that clears the wallet an open can start if and only if the loader
      opens its own database: one over a caller's database has forgotten it. */
  lemma ForeignLoaderCannotReopen(s: State, s': State, ok: bool)
    requires Inv(s) && Next(s, UnloadCloses(ok), s') && (ok || !s.localDB)
    ensures (exists t :: Next(s', OpenStarts, t)) <==> s.localDB
    ensures !s.localDB ==> s'.db == None
  {
    hide Inv, Next;
    UnloadEnds(s, ok, s');
    StepOK(s, UnloadCloses(ok), s');
    assert s'.localDB == s.localDB by { SameKind(s, UnloadCloses(ok), s'); }
    IdleLoader(s');
  }

  lemma SameKind(s: State, step: Step, s': State)
    requires Next(s, step, s')
    ensures s'.localDB == s.localDB
  {
  }

  // ------------------------------------------------------------------- restart

  /** Start on a stopped wallet waits for the old workers while holding the mutex a late
      worker needs to learn its quit channel. */
  ghost predicate Deadlocked(s: State, w: nat) {
    && s.pc == Restarting(w) && w < |s.wallets|
    && s.wallets[w].wg == Unfinished(s.wallets[w])
    && (s.wallets[w].first.Ready? || s.wallets[w].second.Ready?)
  }

  /** Once there, no step of any worker or caller leaves that state. */
  lemma DeadlockIsForever(s: State, step: Step, s': State, w: nat)
    requires Deadlocked(s, w) && Next(s, step, s')
    ensures Deadlocked(s', w)
  {
  }

  /** Without such a late worker the restart goes on: it finishes, or an old worker takes a
      step that brings it closer and leaves no late worker behind. */
  lemma RestartGoesOnOtherwise(s: State, w: nat) returns (step: Step, s': State)
    requires Inv(s) && s.pc == Restarting(w) && !Deadlocked(s, w)
    ensures w < |s.wallets| && Next(s, step, s')
    ensures if s.wallets[w].wg == 0 then s'.pc == Idle
            else
              && s'.pc == s.pc && |s'.wallets| == |s.wallets|
              && Remaining(s'.wallets[w]) < Remaining(s.wallets[w]) && !Deadlocked(s', w)
  {
    assert WalletOK(s, w);
    if s.wallets[w].wg == 0 {
      var again := Wallet(s.wallets[w].db, s.channels, 2, Ready, Ready);
      step, s' := RestartFinishes, s.(wallets := s.wallets[w := again], channels := s.channels + 1, pc := Idle);
    } else {
      step, s' := WorkerStep(s, w, s.wallets[w].first.Done?);
      StillNoLateWorker(s, step, s', w);
    }
  }

  lemma StillNoLateWorker(s: State, step: Step, s': State, w: nat)
    requires s.pc == Restarting(w) && w < |s.wallets| && !s.wallets[w].first.Ready? && !s.wallets[w].second.Ready?
    requires Next(s, step, s') && s'.pc == s.pc
    ensures !Deadlocked(s', w)
  {
  }

  /** ... and nothing undoes that progress: each step of the old workers is one less to take,
      no step of anyone else changes their number, no worker becomes late, and the wait ends
      only when no old worker is left. */
  lemma RestartKeepsProgress(s: State, step: Step, s': State, w: nat)
    requires Inv(s) && s.pc == Restarting(w) && !Deadlocked(s, w) && Next(s, step, s')
    ensures w < |s.wallets| && w < |s'.wallets|
    ensures if s'.pc == Restarting(w) then
              && !Deadlocked(s', w)
              && Remaining(s'.wallets[w]) == Remaining(s.wallets[w]) - (if StepsIn(step, w) then 1 else 0)
            else
              step == RestartFinishes && s'.pc == Idle && Remaining(s.wallets[w]) == 0
  {
    hide WalletsOK;
    assert WalletOK(s, w) by { WalletAt(s, w); }
    if step.RestartFinishes? { assert Unfinished(s.wallets[w]) == 0; }
  }

  /** The run open, load, stop, restart before the workers were scheduled. */
  function LateWorkers(n: nat): State
    requires n < 5
  {
    var s0 := State(true, Idle, None, None, [], [], 0, {}, 0, {}, []);
    var s1 := s0.(db := Some(0), handles := 1, wallets := [Wallet(0, 0, 2, Ready, Ready)], channels := 1,
                  pc := Loading(0, 0));
    var s2 := s1.(loaded := Some(0), pc := Idle);
    var s3 := s2.(closedChans := {0});
    if n == 0 then s0 else if n == 1 then s1 else if n == 2 then s2 else if n == 3 then s3 else s3.(pc := Restarting(0))
  }

  lemma LateWorkersSteps()
    ensures Next(LateWorkers(0), OpenStarts, LateWorkers(1))
    ensures Next(LateWorkers(1), FinishLoad, LateWorkers(2))
    ensures Next(LateWorkers(2), UserStops, LateWorkers(3))
    ensures Next(LateWorkers(3), UserRestarts, LateWorkers(4))
  {
  }

  lemma DeadlockIsReachable()
    ensures exists ss: seq<State>, steps: seq<Step> :: IsRun(ss, steps) && Deadlocked(ss[|ss| - 1], 0)
  {
    hide Next;
    LateWorkersSteps();
    var ss := [LateWorkers(0), LateWorkers(1), LateWorkers(2), LateWorkers(3), LateWorkers(4)];
    var steps := [OpenStarts, FinishLoad, UserStops, UserRestarts];
    assert IsRun(ss, steps);
    assert Deadlocked(ss[|ss| - 1], 0);
  }
}
