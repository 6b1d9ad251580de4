/** nextAddresses as it is meant: derive at the next index, skip invalid children, store
    each address with its account's counter, and move the cached counter when the
    transaction commits.  The departures of the code as written are stated at the end.
 */
module Allocation {
  import opened ByteCodec
  import opened Errors
  import opened Primitives
  import opened AccountRow
  import opened Keyring
  import opened AddressStore

  const MAX_ADDRESSES: uint32 := 0x7FFF_FFFF

  // ------------------------------------------------------------ choosing indices

  /** The first `num` valid child indices from `from` on.  Running out of uint32 indices
      (2^31 consecutive invalid children) is a fault here. */
  function First(c: Crypto, key: ExtKey, from: nat, num: nat): (r: Outcome<seq<uint32>>)
    decreases num, W32 - from
  {
    if num == 0 then Ok([])
    else if from >= W32 - 1 then Fault
    else match c.child(key, from)
      case Child(_) =>
        var rest :- First(c, key, from + 1, num - 1);
        Ok([from] + rest)
      case InvalidChild => First(c, key, from + 1, num)
      case Refused => Err(ErrKeyChain)
  }

  function NextAfter(from: uint32, s: seq<uint32>): nat {
    if s == [] then from else s[|s| - 1] as int + 1
  }

  lemma FirstCons(c: Crypto, key: ExtKey, from: nat, num: nat)
    requires num > 0 && from < W32 && First(c, key, from, num).Ok?
    ensures from + 1 < W32
    ensures match c.child(key, from)
            case Child(_) =>
              && First(c, key, from + 1, num - 1).Ok?
              && First(c, key, from, num).value == [from] + First(c, key, from + 1, num - 1).value
            case InvalidChild => First(c, key, from, num) == First(c, key, from + 1, num)
            case Refused => false
  {
  }

  /** The chosen indices: as many as asked for, strictly increasing from `from`, all
      valid ... */
  lemma {:induction false} FirstAscends(c: Crypto, key: ExtKey, from: nat, num: nat)
    requires First(c, key, from, num).Ok? && from < W32
    ensures var s := First(c, key, from, num).value;
            && |s| == num
            && (forall k :: 0 <= k < |s| ==> from <= s[k] < W32 - 1 && c.child(key, s[k]).Child?)
            && (forall j, k :: 0 <= j < k < |s| ==> s[j] < s[k])
    decreases num, W32 - from
  {
    if num > 0 {
      FirstCons(c, key, from, num);
      hide First;
      FirstAscends(c, key, from + 1, if c.child(key, from).Child? then num - 1 else num);
    }
  }

  /** ... and nothing valid was skipped. */
  lemma {:induction false} FirstSkipsOnlyInvalid(c: Crypto, key: ExtKey, from: nat, num: nat, i: uint32)
    requires First(c, key, from, num).Ok? && from < W32
    ensures var s := First(c, key, from, num).value;
            from <= i < NextAfter(from, s) && i !in s ==> c.child(key, i) == InvalidChild
    decreases num, W32 - from
  {
    if num > 0 {
      FirstCons(c, key, from, num);
      hide First;
      if c.child(key, from).Child? {
        var rest := First(c, key, from + 1, num - 1).value;
        FirstSkipsOnlyInvalid(c, key, from + 1, num - 1, i);
        assert i in [from] + rest <==> i == from || i in rest;
        assert NextAfter(from, [from] + rest) == NextAfter(from + 1, rest);
      } else {
        FirstSkipsOnlyInvalid(c, key, from + 1, num, i);
        FirstAscends(c, key, from + 1, num);
      }
    }
  }

  /** s are valid children from `from` on, ascending, with only invalid ones between them. */
  ghost predicate FirstValid(c: Crypto, key: ExtKey, from: nat, s: seq<uint32>) {
    && (forall k :: 0 <= k < |s| ==> from <= s[k] < W32 - 1 && c.child(key, s[k]).Child?)
    && (forall j, k :: 0 <= j < k < |s| ==> s[j] < s[k])
    && (s != [] ==> forall i: uint32 :: from <= i < s[|s| - 1] && i !in s ==> c.child(key, i) == InvalidChild)
  }

  /** That is exactly what the search finds. */
  lemma FirstExact(c: Crypto, key: ExtKey, from: uint32, num: nat, s: seq<uint32>)
    ensures First(c, key, from, num) == Ok(s) <==> |s| == num && FirstValid(c, key, from, s)
  {
    hide First;
    if First(c, key, from, num) == Ok(s) {
      FirstAscends(c, key, from, num);
      forall i: uint32 | s != [] && from <= i < s[|s| - 1] && i !in s ensures c.child(key, i) == InvalidChild {
        FirstSkipsOnlyInvalid(c, key, from, num, i);
      }
    } else if |s| == num && FirstValid(c, key, from, s) {
      FirstFinds(c, key, from, s);
    }
  }

  lemma {:induction false} FirstFinds(c: Crypto, key: ExtKey, from: uint32, s: seq<uint32>)
    requires FirstValid(c, key, from, s)
    ensures First(c, key, from, |s|) == Ok(s)
    decreases |s|, W32 - from
  {
    hide FirstValid;
    if s != [] {
      FirstValidRest(c, key, from, s);
      if from < s[0] {
        FirstFinds(c, key, from + 1, s);
      } else {
        FirstFinds(c, key, from + 1, s[1..]);
        assert s == [from] + s[1..];
      }
    }
  }

  lemma FirstValidRest(c: Crypto, key: ExtKey, from: uint32, s: seq<uint32>)
    requires FirstValid(c, key, from, s) && s != []
    ensures from <= s[0] < W32 - 1
    ensures if from < s[0] then c.child(key, from) == InvalidChild && FirstValid(c, key, from + 1, s)
            else c.child(key, from).Child? && FirstValid(c, key, from + 1, s[1..])
  {
    if from < s[0] {
      assert from !in s;
    } else {
      assert forall i :: i in s[1..] <==> i in s && i != from;
    }
  }

  ghost predicate AllInvalid(c: Crypto, key: ExtKey, from: nat) {
    forall i: uint32 :: from <= i < W32 - 1 ==> c.child(key, i) == InvalidChild
  }

  /** After k valid children there is no further one. */
  ghost predicate EndsAfter(c: Crypto, key: ExtKey, from: uint32, k: nat) {
    First(c, key, from, k).Ok? && AllInvalid(c, key, NextAfter(from, First(c, key, from, k).value))
  }

  /** The search runs out of indices exactly when it has found fewer than it was asked for
      and all children from there to the end of the index range, the hardened half included,
      are invalid. */
  lemma {:induction false} RunsOutExact(c: Crypto, key: ExtKey, from: uint32, num: nat)
    ensures First(c, key, from, num).Fault? <==> exists k: nat :: k < num && EndsAfter(c, key, from, k)
    decreases num, W32 - from
  {
    if num == 0 {
    } else if from == W32 - 1 {
      assert EndsAfter(c, key, from, 0);
    } else if c.child(key, from).Child? {
      RunsOutExact(c, key, from + 1, num - 1);
      assert First(c, key, from, num).Fault? <==> First(c, key, from + 1, num - 1).Fault?;
      if First(c, key, from + 1, num - 1).Fault? {
        var k: nat :| k < num - 1 && EndsAfter(c, key, from + 1, k);
        EndsOneLater(c, key, from, k);
        assert EndsAfter(c, key, from, k + 1);
      }
      forall k: nat | k < num && EndsAfter(c, key, from, k) ensures k > 0 && EndsAfter(c, key, from + 1, k - 1) {
        EndsAtOnce(c, key, from);
        if k > 0 { EndsOneLater(c, key, from, k - 1); }
      }
    } else if c.child(key, from) == InvalidChild {
      RunsOutExact(c, key, from + 1, num);
      assert First(c, key, from, num) == First(c, key, from + 1, num);
      hide First, EndsAfter;
      if First(c, key, from, num).Fault? {
        var k: nat :| k < num && EndsAfter(c, key, from + 1, k);
        EndsSkipping(c, key, from, k);
        assert EndsAfter(c, key, from, k);
      }
      forall k: nat | k < num && EndsAfter(c, key, from, k) ensures EndsAfter(c, key, from + 1, k) {
        EndsSkipping(c, key, from, k);
      }
    } else {
      forall k: nat | k < num ensures !EndsAfter(c, key, from, k) {
        EndsAtOnce(c, key, from);
      }
    }
  }

  lemma EndsAtOnce(c: Crypto, key: ExtKey, from: uint32)
    requires from < W32 - 1
    ensures EndsAfter(c, key, from, 0) ==> c.child(key, from) == InvalidChild
  {
  }

  lemma EndsOneLater(c: Crypto, key: ExtKey, from: uint32, k: nat)
    requires from < W32 - 1 && c.child(key, from).Child?
    ensures EndsAfter(c, key, from, k + 1) <==> EndsAfter(c, key, from + 1, k)
  {
    if First(c, key, from + 1, k).Ok? {
      var rest := First(c, key, from + 1, k).value;
      assert NextAfter(from, [from] + rest) == NextAfter(from + 1, rest);
    }
  }

  lemma EndsSkipping(c: Crypto, key: ExtKey, from: uint32, k: nat)
    requires from < W32 - 1 && c.child(key, from) == InvalidChild
    ensures EndsAfter(c, key, from, k) <==> EndsAfter(c, key, from + 1, k)
  {
    if k == 0 {
      assert AllInvalid(c, key, from) <==> AllInvalid(c, key, from + 1);
    } else if First(c, key, from + 1, k).Ok? {
      FirstAscends(c, key, from + 1, k);
    }
  }

  /** The nested loops of nextAddresses. */
  method ChooseIndices(c: Crypto, key: ExtKey, from: uint32, num: uint32) returns (r: Outcome<seq<uint32>>, next: nat)
    ensures r == First(c, key, from, num)
    ensures r.Ok? ==> next == NextAfter(from, r.value)
  {
    next := from;
    var got: seq<uint32> := [];
    var i := 0;
    PrependNil(First(c, key, from, num));
    while i < num
      invariant 0 <= i == |got| <= num && from <= next < W32
      invariant Prepend(got, First(c, key, next, num - |got|)) == First(c, key, from, num)
      invariant next == NextAfter(from, got)
    {
      var found := false;
      while !found
        invariant from <= next < W32 && |got| == (if found then i + 1 else i)
        invariant Prepend(got, First(c, key, next, num - |got|)) == First(c, key, from, num)
        invariant found ==> next == NextAfter(from, got)
        decreases !found, W32 - next
      {
        if next >= W32 - 1 {
          return Fault, next;
        }
        match c.child(key, next) {
          case InvalidChild => next := next + 1;
          case Refused => return Err(ErrKeyChain), next;
          case Child(_) =>
            PrependMore(got, next, First(c, key, next + 1, num - |got| - 1));
            got := got + [next];
            next := next + 1;
            found := true;
        }
      }
      i := i + 1;
    }
    assert got + [] == got;
    r := Ok(got);
  }

  lemma PrependNil(rest: Outcome<seq<uint32>>)
    ensures Prepend([], rest) == rest
  {
    if rest.Ok? { assert [] + rest.value == rest.value; }
  }

  function Prepend(got: seq<uint32>, rest: Outcome<seq<uint32>>): Outcome<seq<uint32>> {
    match rest
    case Ok(s) => Ok(got + s)
    case other => other
  }

  lemma PrependMore(got: seq<uint32>, x: uint32, rest: Outcome<seq<uint32>>)
    ensures Prepend(got + [x], rest) == Prepend(got, match rest case Ok(s) => Ok([x] + s) case other => other)
  {
    if rest.Ok? { assert (got + [x]) + rest.value == got + ([x] + rest.value); }
  }

  // ----------------------------------------------------------------- one request

  /** The persisted account row and the cached counters of one account. */
  datatype Alloc = Alloc(row: AcctRow, external: uint32, internal: uint32)

  datatype Ask = Ask(internal: bool, num: uint32)

  function Branch(q: Ask): uint32 { if q.internal then INTERNAL else EXTERNAL }

  function CachedNext(a: Alloc, q: Ask): uint32 { if q.internal then a.internal else a.external }

  predicate OverLimit(from: uint32, num: uint32) {
    num > MAX_ADDRESSES || Add32(from, num) > MAX_ADDRESSES
  }

  /** The limit test does not wrap while the stored index is within the limit. */
  lemma LimitIsExact(from: uint32, num: uint32)
    requires from <= MAX_ADDRESSES
    ensures OverLimit(from, num) <==> from + num > MAX_ADDRESSES
  {
  }

  /** The indices a request hands out from the counter `from` on. */
  function Choose(c: Crypto, acctKey: ExtKey, from: uint32, q: Ask): Outcome<seq<uint32>> {
    if OverLimit(from, q.num) then Err(ErrTooManyAddresses)
    else match c.child(acctKey, Branch(q))
      case Child(b) => First(c, b, from, q.num)
      case _ => Err(ErrKeyChain)
  }

  /** The indices of a request: within the limit, on branch 1 if internal and 0 otherwise, the
      first valid children from the counter on. */
  ghost predicate Chosen(c: Crypto, acctKey: ExtKey, from: uint32, q: Ask, s: seq<uint32>) {
    && q.num <= 0x7FFF_FFFF && (from + q.num) % 0x1_0000_0000 <= 0x7FFF_FFFF
    && var b := c.child(acctKey, if q.internal then 1 else 0);
    b.Child? && |s| == q.num && FirstValid(c, b.key, from, s)
  }

  /** A request succeeds with exactly those; one beyond the limit is refused as such. */
  lemma ChooseExact(c: Crypto, acctKey: ExtKey, from: uint32, q: Ask, s: seq<uint32>)
    ensures Choose(c, acctKey, from, q) == Ok(s) <==> Chosen(c, acctKey, from, q, s)
    ensures Choose(c, acctKey, from, q) == Err(ErrTooManyAddresses) <==>
            q.num > 0x7FFF_FFFF || (from + q.num) % 0x1_0000_0000 > 0x7FFF_FFFF
  {
    hide First, FirstValid;
    if c.child(acctKey, Branch(q)).Child? {
      FirstExact(c, c.child(acctKey, Branch(q)).key, from, q.num, s);
      FirstErrors(c, c.child(acctKey, Branch(q)).key, from, q.num);
    }
  }

  lemma {:induction false} FirstErrors(c: Crypto, key: ExtKey, from: uint32, num: nat)
    ensures First(c, key, from, num).Err? ==> First(c, key, from, num).code == ErrKeyChain
    decreases num, W32 - from
  {
    if num > 0 && from < W32 - 1 {
      match c.child(key, from)
      case Child(_) => FirstErrors(c, key, from + 1, num - 1);
      case InvalidChild => FirstErrors(c, key, from + 1, num);
      case Refused =>
    }
  }

  /** One nextAddresses call inside a transaction. */
  function Request(c: Crypto, acctKey: ExtKey, a: Alloc, q: Ask): Outcome<seq<uint32>> {
    Choose(c, acctKey, CachedNext(a, q), q)
  }

  /** putChainedAddress for each handed-out index in turn. */
  function StoreAll(row: AcctRow, branch: uint32, s: seq<uint32>): AcctRow
    decreases |s|
  {
    if s == [] then row else StoreAll(Advanced(row, branch, s[0]), branch, s[1..])
  }

  /** Storing a batch moves one counter, to just past the last index. */
  lemma {:induction false} StoreAllMovesOneCounter(row: AcctRow, branch: uint32, s: seq<uint32>)
    requires branch == INTERNAL || branch == EXTERNAL
    requires s != []
    ensures StoreAll(row, branch, s) == Advanced(row, branch, s[|s| - 1])
    decreases |s|
  {
    if |s| > 1 {
      StoreAllMovesOneCounter(Advanced(row, branch, s[0]), branch, s[1..]);
    } else {
      assert StoreAll(Advanced(row, branch, s[0]), branch, s[1..]) == Advanced(row, branch, s[0]);
    }
  }

  // ---------------------------------------------------------------- transactions

  /** A transaction of requests: every request reads the cached counters as they were at
      its start, the row accumulates, the commit callbacks move the counters.  Any error
      rolls everything back; a zero-address request faults in its commit callback. */
  function Transact(c: Crypto, acctKey: ExtKey, a: Alloc, qs: seq<Ask>): Outcome<(Alloc, seq<seq<uint32>>)> {
    TransactFrom(c, acctKey, a, a, qs)
  }

  function TransactFrom(c: Crypto, acctKey: ExtKey, start: Alloc, now: Alloc, qs: seq<Ask>)
    : Outcome<(Alloc, seq<seq<uint32>>)>
    decreases |qs|
  {
    if qs == [] then Ok((now, [])) else
    var s :- Request(c, acctKey, start, qs[0]);
    if s == [] then Fault else
    var (fin, rest) :- TransactFrom(c, acctKey, start, Served(start, now, qs[0], s), qs[1..]);
    Ok((fin, [s] + rest))
  }

  /** One request's writes to the row and (at commit) to the cache. */
  function Served(start: Alloc, now: Alloc, q: Ask, s: seq<uint32>): Alloc {
    var next := NextAfter(CachedNext(start, q), s) % W32;
    var row := StoreAll(now.row, Branch(q), s);
    if q.internal then now.(row := row, internal := next) else now.(row := row, external := next)
  }

  lemma TransactCons(c: Crypto, acctKey: ExtKey, start: Alloc, now: Alloc, q: Ask, qs: seq<Ask>)
    requires TransactFrom(c, acctKey, start, now, [q] + qs).Ok?
    ensures Request(c, acctKey, start, q).Ok? && Request(c, acctKey, start, q).value != []
    ensures var s := Request(c, acctKey, start, q).value;
            var rest := TransactFrom(c, acctKey, start, Served(start, now, q, s), qs);
            rest.Ok? && TransactFrom(c, acctKey, start, now, [q] + qs).value == (rest.value.0, [s] + rest.value.1)
  {
    hide Request, Served;
    assert ([q] + qs)[0] == q && ([q] + qs)[1..] == qs;
  }

  lemma TransactNil(c: Crypto, acctKey: ExtKey, start: Alloc, now: Alloc)
    ensures TransactFrom(c, acctKey, start, now, []) == Ok((now, []))
  {
  }

  /** The persisted and the cached counters agree. */
  predicate Agree(a: Alloc) {
    a.row.nextExternal == a.external && a.row.nextInternal == a.internal
  }

  /** No branch is asked twice. */
  predicate OnePerBranch(qs: seq<Ask>) {
    forall i, j :: 0 <= i < j < |qs| ==> qs[i].internal != qs[j].internal
  }

  lemma AtMostTwo(qs: seq<Ask>)
    requires OnePerBranch(qs)
    ensures |qs| <= 2
  {
    hide OnePerBranch;
    if |qs| > 2 {
      BranchesDiffer(qs, 0, 1);
      BranchesDiffer(qs, 1, 2);
      BranchesDiffer(qs, 0, 2);
      assert false;
    }
  }

  lemma BranchesDiffer(qs: seq<Ask>, i: nat, j: nat)
    requires OnePerBranch(qs) && i < j < |qs|
    ensures qs[i].internal != qs[j].internal
  {
  }

  /** What one request contributes: indices from the cached counter on, the counter moved
      past them in row and cache alike, nothing else changed. */
  lemma RequestMoves(c: Crypto, acctKey: ExtKey, start: Alloc, now: Alloc, q: Ask)
    requires Request(c, acctKey, start, q).Ok? && Request(c, acctKey, start, q).value != []
    ensures var s := Request(c, acctKey, start, q).value;
            var last := s[|s| - 1];
            && (forall k :: 0 <= k < |s| ==> s[k] >= CachedNext(start, q))
            && (forall j, k :: 0 <= j < k < |s| ==> s[j] < s[k])
            && last < W32 - 1 && NextAfter(CachedNext(start, q), s) % W32 == last + 1
            && StoreAll(now.row, Branch(q), s) ==
               if q.internal then now.row.(nextInternal := last + 1) else now.row.(nextExternal := last + 1)
  {
    hide First, StoreAll, Advanced, NextAfter, OverLimit;
    var s := Request(c, acctKey, start, q).value;
    FirstAscends(c, c.child(acctKey, Branch(q)).key, CachedNext(start, q), q.num);
    StoreAllMovesOneCounter(now.row, Branch(q), s);
    JustPast(CachedNext(start, q), now.row, q, s);
  }

  lemma JustPast(from: uint32, row: AcctRow, q: Ask, s: seq<uint32>)
    requires s != [] && s[|s| - 1] < W32 - 1
    ensures NextAfter(from, s) % W32 == s[|s| - 1] + 1
    ensures Advanced(row, Branch(q), s[|s| - 1]) ==
            if q.internal then row.(nextInternal := s[|s| - 1] + 1) else row.(nextExternal := s[|s| - 1] + 1)
  {
  }

  /** Committing one request per branch keeps the counters in step and moves each branch
      that was asked for strictly forward. */
  lemma TransactKeepsStep(c: Crypto, acctKey: ExtKey, a: Alloc, qs: seq<Ask>)
    requires Agree(a) && OnePerBranch(qs) && Transact(c, acctKey, a, qs).Ok?
    ensures var (b, handed) := Transact(c, acctKey, a, qs).value;
            && Agree(b) && |handed| == |qs|
            && b.row.(nextExternal := 0, nextInternal := 0) == a.row.(nextExternal := 0, nextInternal := 0)
            && b.external >= a.external && b.internal >= a.internal
            && forall i :: 0 <= i < |qs| ==>
                 handed[i] != [] && Within(CachedNext(a, qs[i]), handed[i], CachedNext(b, qs[i]))
  {
    hide Request, StoreAll, First, TransactFrom;
    AtMostTwo(qs);
    if |qs| == 0 {
      TransactNil(c, acctKey, a, a);
    } else {
      var q := qs[0];
      assert qs == [q] + qs[1..];
      TransactCons(c, acctKey, a, a, q, qs[1..]);
      RequestMoves(c, acctKey, a, a, q);
      var s := Request(c, acctKey, a, q).value;
      var mid := Served(a, a, q, s);
      if |qs| == 1 {
        TransactNil(c, acctKey, a, mid);
      } else {
        var p := qs[1];
        assert qs[1..] == [p] + [];
        TransactCons(c, acctKey, a, mid, p, []);
        RequestMoves(c, acctKey, a, mid, p);
        TransactNil(c, acctKey, a, Served(a, mid, p, Request(c, acctKey, a, p).value));
      }
    }
  }

  /** Strictly increasing indices in [from, to). */
  ghost predicate Within(from: int, s: seq<uint32>, to: int) {
    && from <= to
    && (forall k :: 0 <= k < |s| ==> from <= s[k] < to)
    && (forall j, k :: 0 <= j < k < |s| ==> s[j] < s[k])
  }

  // ------------------------------------------------------------------------- runs

  /** A transaction that failed or was rolled back leaves row and cache unchanged. */
  function AfterTx(c: Crypto, acctKey: ExtKey, a: Alloc, qs: seq<Ask>): Alloc {
    match Transact(c, acctKey, a, qs)
    case Ok(r) => r.0
    case _ => a
  }

  function BranchOf(qs: seq<Ask>, handed: seq<seq<uint32>>, internal: bool): seq<uint32>
    requires |qs| == |handed|
    decreases |qs|
  {
    if qs == [] then []
    else (if qs[0].internal == internal then handed[0] else []) + BranchOf(qs[1..], handed[1..], internal)
  }

  lemma HandedCount(c: Crypto, acctKey: ExtKey, start: Alloc, now: Alloc, qs: seq<Ask>)
    requires TransactFrom(c, acctKey, start, now, qs).Ok?
    ensures |TransactFrom(c, acctKey, start, now, qs).value.1| == |qs|
    decreases |qs|
  {
    hide Request, Served;
    if qs != [] {
      var s := Request(c, acctKey, start, qs[0]).value;
      HandedCount(c, acctKey, start, Served(start, now, qs[0], s), qs[1..]);
    }
  }

  /** The indices of a branch handed out by the committed transactions of a run. */
  function HandedOut(c: Crypto, acctKey: ExtKey, a: Alloc, txs: seq<seq<Ask>>, internal: bool): seq<uint32>
    decreases |txs|
  {
    if txs == [] then []
    else
      var rest := HandedOut(c, acctKey, AfterTx(c, acctKey, a, txs[0]), txs[1..], internal);
      match Transact(c, acctKey, a, txs[0])
      case Ok(r) => (HandedCount(c, acctKey, a, a, txs[0]); BranchOf(txs[0], r.1, internal)) + rest
      case _ => rest
  }

  function RunTxs(c: Crypto, acctKey: ExtKey, a: Alloc, txs: seq<seq<Ask>>): Alloc
    decreases |txs|
  {
    if txs == [] then a else RunTxs(c, acctKey, AfterTx(c, acctKey, a, txs[0]), txs[1..])
  }

  function BranchNext(a: Alloc, internal: bool): uint32 { if internal then a.internal else a.external }

  lemma TxWithin(c: Crypto, acctKey: ExtKey, a: Alloc, qs: seq<Ask>, internal: bool)
    requires Agree(a) && OnePerBranch(qs) && Transact(c, acctKey, a, qs).Ok?
    requires |Transact(c, acctKey, a, qs).value.1| == |qs|
    ensures Within(BranchNext(a, internal), BranchOf(qs, Transact(c, acctKey, a, qs).value.1, internal),
                   BranchNext(AfterTx(c, acctKey, a, qs), internal))
  {
    hide Transact;
    AtMostTwo(qs);
    TransactKeepsStep(c, acctKey, a, qs);
    var (b, handed) := Transact(c, acctKey, a, qs).value;
    if |qs| == 0 {
      assert BranchOf(qs, handed, internal) == [];
    } else if |qs| == 1 {
      assert BranchOf(qs[1..], handed[1..], internal) == [];
      assert BranchOf(qs, handed, internal) == if qs[0].internal == internal then handed[0] else [];
    } else {
      assert BranchOf(qs[1..][1..], handed[1..][1..], internal) == [];
      assert BranchOf(qs[1..], handed[1..], internal) == if qs[1].internal == internal then handed[1] else [];
      assert BranchOf(qs, handed, internal) == handed[if qs[0].internal == internal then 0 else 1];
    }
  }

  lemma WithinJoin(x: int, s: seq<uint32>, y: int, t: seq<uint32>, z: int)
    requires Within(x, s, y) && Within(y, t, z)
    ensures Within(x, s + t, z)
  {
  }

  /** Every committed transaction of the run asks each branch at most once. */
  predicate CommittedOnce(c: Crypto, acctKey: ExtKey, a: Alloc, txs: seq<seq<Ask>>)
    decreases |txs|
  {
    txs == [] ||
    (&& (Transact(c, acctKey, a, txs[0]).Ok? ==> OnePerBranch(txs[0]))
     && CommittedOnce(c, acctKey, AfterTx(c, acctKey, a, txs[0]), txs[1..]))
  }

  /** Over every run whose committed transactions ask each branch at most once, whatever is
      rolled back in between: persisted and cached counters agree at the end, and each
      branch's indices strictly increase, so none is ever handed out twice. */
  lemma {:induction false} RunNeverReuses(c: Crypto, acctKey: ExtKey, a: Alloc, txs: seq<seq<Ask>>, internal: bool)
    requires Agree(a) && CommittedOnce(c, acctKey, a, txs)
    ensures Agree(RunTxs(c, acctKey, a, txs))
    ensures Within(BranchNext(a, internal), HandedOut(c, acctKey, a, txs, internal),
                   BranchNext(RunTxs(c, acctKey, a, txs), internal))
    decreases |txs|
  {
    hide Transact, Within, BranchOf, OnePerBranch;
    if txs == [] {
      assert Within(BranchNext(a, internal), [], BranchNext(a, internal)) by { WithinNil(BranchNext(a, internal)); }
    } else {
      var b := AfterTx(c, acctKey, a, txs[0]);
      if Transact(c, acctKey, a, txs[0]).Ok? {
        HandedCount(c, acctKey, a, a, txs[0]) by { TransactIs(c, acctKey, a, txs[0]); }
        assert |Transact(c, acctKey, a, txs[0]).value.1| == |txs[0]| by { TransactIs(c, acctKey, a, txs[0]); }
        TransactKeepsStep(c, acctKey, a, txs[0]);
        TxWithin(c, acctKey, a, txs[0], internal);
        RunNeverReuses(c, acctKey, b, txs[1..], internal);
        WithinJoin(BranchNext(a, internal), BranchOf(txs[0], Transact(c, acctKey, a, txs[0]).value.1, internal),
                   BranchNext(b, internal),
                   HandedOut(c, acctKey, b, txs[1..], internal), BranchNext(RunTxs(c, acctKey, a, txs), internal));
      } else {
        RunNeverReuses(c, acctKey, a, txs[1..], internal);
      }
    }
  }

  lemma TransactIs(c: Crypto, acctKey: ExtKey, a: Alloc, qs: seq<Ask>)
    ensures Transact(c, acctKey, a, qs) == TransactFrom(c, acctKey, a, a, qs)
  {
  }

  lemma WithinNil(x: int)
    ensures Within(x, [], x)
  {
  }

  // ---------------------------------------- two requests on one branch, exactly

  /** Every request of a transaction reads the counters as they were at its start. */
  lemma {:induction false} HandedIsRequest(c: Crypto, acctKey: ExtKey, start: Alloc, now: Alloc, qs: seq<Ask>, i: nat)
    requires TransactFrom(c, acctKey, start, now, qs).Ok? && i < |qs|
    ensures var handed := TransactFrom(c, acctKey, start, now, qs).value.1;
            i < |handed| && Request(c, acctKey, start, qs[i]) == Ok(handed[i]) && handed[i] != []
    decreases |qs|
  {
    hide Request, Served;
    var s := Request(c, acctKey, start, qs[0]).value;
    if i > 0 {
      HandedIsRequest(c, acctKey, start, Served(start, now, qs[0], s), qs[1..], i - 1);
    }
  }

  /** Searches from one index find the same first child, whatever they go on to. */
  lemma SameFirst(c: Crypto, key: ExtKey, from: uint32, n: nat, m: nat)
    requires First(c, key, from, n).Ok? && First(c, key, from, m).Ok? && n > 0 && m > 0
    ensures |First(c, key, from, n).value| == n && |First(c, key, from, m).value| == m
    ensures First(c, key, from, n).value[0] == First(c, key, from, m).value[0]
  {
    hide First;
    FirstAscends(c, key, from, n);
    FirstAscends(c, key, from, m);
    var s, t := First(c, key, from, n).value, First(c, key, from, m).value;
    FirstSkipsOnlyInvalid(c, key, from, n, t[0]);
    FirstSkipsOnlyInvalid(c, key, from, m, s[0]);
  }

  /** Any two requests on one branch of a committed transaction share their first index: the
      cached counter only moves at commit. */
  lemma SameBranchTwiceRepeats(c: Crypto, acctKey: ExtKey, a: Alloc, qs: seq<Ask>, i: nat, j: nat)
    requires Transact(c, acctKey, a, qs).Ok? && i < |qs| && j < |qs| && qs[i].internal == qs[j].internal
    ensures var handed := Transact(c, acctKey, a, qs).value.1;
            |handed| == |qs| && handed[i] != [] && handed[j] != [] && handed[i][0] == handed[j][0]
  {
    hide First, OverLimit, TransactFrom;
    HandedCount(c, acctKey, a, a, qs);
    HandedIsRequest(c, acctKey, a, a, qs, i);
    HandedIsRequest(c, acctKey, a, a, qs, j);
    var b := c.child(acctKey, Branch(qs[i])).key;
    FirstAscends(c, b, CachedNext(a, qs[i]), qs[i].num);
    FirstAscends(c, b, CachedNext(a, qs[j]), qs[j].num);
    SameFirst(c, b, CachedNext(a, qs[i]), qs[i].num, qs[j].num);
  }

  predicate Disjoint(s: seq<uint32>, t: seq<uint32>) { forall x :: x in s ==> x !in t }

  /** A committed transaction hands out no index of a branch twice if and only if it asks no
      branch twice. */
  lemma TransactExact(c: Crypto, acctKey: ExtKey, a: Alloc, qs: seq<Ask>)
    requires Transact(c, acctKey, a, qs).Ok?
    ensures |Transact(c, acctKey, a, qs).value.1| == |qs|
    ensures var handed := Transact(c, acctKey, a, qs).value.1;
            (forall i, j :: 0 <= i < j < |qs| && qs[i].internal == qs[j].internal ==> Disjoint(handed[i], handed[j]))
            <==> OnePerBranch(qs)
  {
    hide Transact, TransactFrom;
    HandedCount(c, acctKey, a, a, qs) by { TransactIs(c, acctKey, a, qs); }
    assert |Transact(c, acctKey, a, qs).value.1| == |qs| by { TransactIs(c, acctKey, a, qs); }
    forall i, j | 0 <= i < j < |qs| && qs[i].internal == qs[j].internal
      ensures !Disjoint(Transact(c, acctKey, a, qs).value.1[i], Transact(c, acctKey, a, qs).value.1[j])
    {
      SameBranchTwiceRepeats(c, acctKey, a, qs, i, j);
      assert Transact(c, acctKey, a, qs).value.1[i][0] in Transact(c, acctKey, a, qs).value.1[j];
    }
  }

  /** Such a transaction does commit: over the toy primitives, two requests for one external
      address each on a fresh account, both at index 0. */
  lemma SameBranchTwiceCommits()
    ensures var q, a := Ask(false, 1), Alloc(AcctRow([], [], 0, 0, []), 0, 0);
            var r := Transact(Toy(), ExtKey(true, 0), a, [q, q]);
            r.Ok? && r.value.1 == [[0], [0]]
  {
    hide ToyText, ToyParse;
    var q, a, c, key := Ask(false, 1), Alloc(AcctRow([], [], 0, 0, []), 0, 0), Toy(), ExtKey(true, 0);
    assert c.child(key, 0) == Child(key);
    assert First(c, key, 1, 0) == Ok([]) && [0] + [] == [0];
    assert Request(c, key, a, q) == Ok([0]);
    hide Request, Served, Toy;
    var mid := Served(a, a, q, [0]);
    TransactNil(c, key, a, Served(a, mid, q, [0]));
    assert [q, q][1..] == [q] && [q][1..] == [];
    assert TransactFrom(c, key, a, mid, [q]).Ok? && TransactFrom(c, key, a, mid, [q]).value.1 == [[0]] + [];
    assert [[0]] + [[0]] == [[0], [0]];
  }

  predicate Distinct(s: seq<uint32>) { forall i, j :: 0 <= i < j < |s| ==> s[i] != s[j] }

  lemma {:induction false} BranchMember(qs: seq<Ask>, handed: seq<seq<uint32>>, internal: bool, i: nat, x: uint32)
    requires |qs| == |handed| && i < |qs| && qs[i].internal == internal && x in handed[i]
    ensures x in BranchOf(qs, handed, internal)
    decreases |qs|
  {
    if i > 0 {
      BranchMember(qs[1..], handed[1..], internal, i - 1, x);
    }
  }

  /** An index in two requests of a branch occurs twice in the branch's list. */
  lemma {:induction false} BranchTwice(qs: seq<Ask>, handed: seq<seq<uint32>>, internal: bool, i: nat, j: nat,
                                       x: uint32)
    requires |qs| == |handed| && i < j < |qs| && qs[i].internal == qs[j].internal == internal && x in handed[i]
    requires x in handed[j]
    ensures !Distinct(BranchOf(qs, handed, internal))
    decreases |qs|
  {
    var rest := BranchOf(qs[1..], handed[1..], internal);
    var first := if qs[0].internal == internal then handed[0] else [];
    if i > 0 {
      BranchTwice(qs[1..], handed[1..], internal, i - 1, j - 1, x);
      NotDistinctRight(first, rest);
    } else {
      BranchMember(qs[1..], handed[1..], internal, j - 1, x);
      var k :| 0 <= k < |first| && first[k] == x;
      var l :| 0 <= l < |rest| && rest[l] == x;
      assert (first + rest)[k] == (first + rest)[|first| + l];
    }
  }

  lemma NotDistinctRight(s: seq<uint32>, t: seq<uint32>)
    requires !Distinct(t)
    ensures !Distinct(s + t)
  {
    var i, j :| 0 <= i < j < |t| && t[i] == t[j];
    assert (s + t)[|s| + i] == (s + t)[|s| + j];
  }

  lemma NotDistinctLeft(s: seq<uint32>, t: seq<uint32>)
    requires !Distinct(s)
    ensures !Distinct(s + t)
  {
    var i, j :| 0 <= i < j < |s| && s[i] == s[j];
    assert (s + t)[i] == (s + t)[j];
  }

  /** Over every run of transactions, committed or rolled back: no index of either branch is
      handed out twice if and only if no committed transaction asks a branch twice. */
  lemma {:induction false} RunReuseExact(c: Crypto, acctKey: ExtKey, a: Alloc, txs: seq<seq<Ask>>)
    requires Agree(a)
    ensures Distinct(HandedOut(c, acctKey, a, txs, true)) && Distinct(HandedOut(c, acctKey, a, txs, false))
            <==> CommittedOnce(c, acctKey, a, txs)
    decreases |txs|
  {
    hide Transact, BranchOf, Distinct, OnePerBranch, Within;
    if CommittedOnce(c, acctKey, a, txs) {
      RunNeverReuses(c, acctKey, a, txs, true);
      RunNeverReuses(c, acctKey, a, txs, false);
      WithinDistinct(BranchNext(a, true), HandedOut(c, acctKey, a, txs, true),
                     BranchNext(RunTxs(c, acctKey, a, txs), true));
      WithinDistinct(BranchNext(a, false), HandedOut(c, acctKey, a, txs, false),
                     BranchNext(RunTxs(c, acctKey, a, txs), false));
    } else if !Transact(c, acctKey, a, txs[0]).Ok? {
      RunReuseExact(c, acctKey, a, txs[1..]);
    } else {
      TransactExact(c, acctKey, a, txs[0]);
      var handed, b := Transact(c, acctKey, a, txs[0]).value.1, AfterTx(c, acctKey, a, txs[0]);
      var internal := BrokenBranch(c, acctKey, a, txs);
      var rest := HandedOut(c, acctKey, b, txs[1..], internal);
      if OnePerBranch(txs[0]) {
        NotDistinctRight(BranchOf(txs[0], handed, internal), rest);
      } else {
        NotDistinctLeft(BranchOf(txs[0], handed, internal), rest);
      }
    }
  }

  /** The branch a run that is not CommittedOnce repeats on. */
  lemma BrokenBranch(c: Crypto, acctKey: ExtKey, a: Alloc, txs: seq<seq<Ask>>) returns (internal: bool)
    requires Agree(a) && !CommittedOnce(c, acctKey, a, txs) && txs != [] && Transact(c, acctKey, a, txs[0]).Ok?
    requires |Transact(c, acctKey, a, txs[0]).value.1| == |txs[0]|
    ensures if OnePerBranch(txs[0])
            then !Distinct(HandedOut(c, acctKey, AfterTx(c, acctKey, a, txs[0]), txs[1..], internal))
            else !Distinct(BranchOf(txs[0], Transact(c, acctKey, a, txs[0]).value.1, internal))
    decreases |txs|, 0
  {
    hide Transact, BranchOf, Distinct, Within;
    if OnePerBranch(txs[0]) {
      TransactKeepsStep(c, acctKey, a, txs[0]);
      RunReuseExact(c, acctKey, AfterTx(c, acctKey, a, txs[0]), txs[1..]);
      internal := !Distinct(HandedOut(c, acctKey, AfterTx(c, acctKey, a, txs[0]), txs[1..], true));
    } else {
      var i, j :| 0 <= i < j < |txs[0]| && txs[0][i].internal == txs[0][j].internal;
      internal := txs[0][i].internal;
      SameBranchTwiceRepeats(c, acctKey, a, txs[0], i, j);
      var handed := Transact(c, acctKey, a, txs[0]).value.1;
      BranchTwice(txs[0], handed, internal, i, j, handed[i][0]);
    }
  }

  lemma WithinDistinct(from: int, s: seq<uint32>, to: int)
    requires Within(from, s, to)
    ensures Distinct(s)
  {
  }

  // ------------------------------------------------------ as the code is written

  /** How the derivation loop as written ends: with recorded indices and keys, with an
      error, or not at all. */
  datatype Literal = Returns(addrs: seq<(uint32, ExtKey)>) | Refuses | Diverges

  /** The derivation loop as written: address i gets child i of the branch under the
      recorded index `from + i`, and an invalid child is retried without end. */
  function DerivedAsWritten(c: Crypto, key: ExtKey, from: uint32, i: uint32, num: uint32): Literal
    decreases num - i
  {
    if i >= num then Returns([])
    else match c.child(key, i)
      case Child(k) =>
        (match DerivedAsWritten(c, key, from, i + 1, num)
         case Returns(rest) => Returns([(Add32(from, i), k)] + rest)
         case other => other)
      case InvalidChild => Diverges
      case Refused => Refuses
  }

  lemma {:induction false} DerivedAsWrittenAt(c: Crypto, key: ExtKey, from: uint32, i: uint32, num: uint32, k: nat)
    requires i <= num && DerivedAsWritten(c, key, from, i, num).Returns?
    ensures var d := DerivedAsWritten(c, key, from, i, num).addrs;
            && |d| == num - i
            && (k < |d| ==> d[k].0 == Add32(from, i + k) && c.child(key, i + k) == Child(d[k].1))
    decreases num - i
  {
    if i < num {
      DerivedAsWrittenAt(c, key, from, i + 1, num, if k > 0 then k - 1 else 0);
    }
  }

  ghost predicate ValidFrom(c: Crypto, key: ExtKey, i: uint32, x: uint32) {
    forall y: uint32 :: i <= y < x ==> c.child(key, y).Child?
  }

  /** The loop returns exactly when its first `num` children are all valid, and runs forever
      exactly when the first that is not is an invalid one. */
  lemma {:induction false} DerivedAsWrittenEnds(c: Crypto, key: ExtKey, from: uint32, i: uint32, num: uint32)
    ensures DerivedAsWritten(c, key, from, i, num).Returns? <==> ValidFrom(c, key, i, num)
    ensures DerivedAsWritten(c, key, from, i, num).Diverges? <==>
            exists x: uint32 :: i <= x < num && c.child(key, x) == InvalidChild && ValidFrom(c, key, i, x)
    decreases num - i
  {
    if i < num {
      DerivedAsWrittenEnds(c, key, from, i + 1, num);
      if c.child(key, i).Child? {
        if DerivedAsWritten(c, key, from, i + 1, num).Diverges? {
          var x: uint32 :| i + 1 <= x < num && c.child(key, x) == InvalidChild && ValidFrom(c, key, i + 1, x);
          assert ValidFrom(c, key, i, x);
        }
      } else if c.child(key, i) == InvalidChild {
        assert ValidFrom(c, key, i, i);
      }
    }
  }

  ghost predicate AllRight(c: Crypto, key: ExtKey, r: Literal) {
    r.Returns? && forall k :: 0 <= k < |r.addrs| ==> c.child(key, r.addrs[k].0) == Child(r.addrs[k].1)
  }

  /** Where distinct indices give distinct children, a request as written ends with every
      address carrying the key of its recorded index exactly when it starts at index 0 and
      its children are all valid. */
  lemma LoopCounterDerivation(c: Crypto, key: ExtKey, from: uint32, num: uint32)
    requires num > 0 && from + num < W32
    requires forall i: uint32, j: uint32 :: c.child(key, i).Child? && c.child(key, i) == c.child(key, j) ==> i == j
    ensures AllRight(c, key, DerivedAsWritten(c, key, from, 0, num)) <==> from == 0 && ValidFrom(c, key, 0, num)
  {
    hide DerivedAsWritten;
    DerivedAsWrittenEnds(c, key, from, 0, num);
    var r := DerivedAsWritten(c, key, from, 0, num);
    if r.Returns? {
      forall k: nat | k < |r.addrs| ensures r.addrs[k].0 == from + k && c.child(key, k) == Child(r.addrs[k].1) {
        DerivedAsWrittenAt(c, key, from, 0, num, k);
      }
      DerivedAsWrittenAt(c, key, from, 0, num, 0);
      assert c.child(key, r.addrs[0].0) == Child(r.addrs[0].1) <==> from == 0;
    }
  }

  /** nextAddresses as written, None when it does not return: whatever storing and reading
      back the first address gave, the mismatch error follows. */
  function NextAsWritten(c: Crypto, key: ExtKey, from: uint32, num: uint32,
                         stored: Outcome<()>): Option<Outcome<seq<(uint32, ExtKey)>>> {
    match DerivedAsWritten(c, key, from, 0, num)
    case Diverges => None
    case Refuses => Some(Err(ErrKeyChain))
    case Returns(d) =>
      if d == [] then Some(Ok([]))
      else if !stored.Ok? then Some(stored.PropagateFailure())
      else Some(Err(ErrAddrMismatch))
  }

  /** The transaction around it: the commit callback takes the last address of the batch. */
  function CommitAsWritten(r: Outcome<seq<(uint32, ExtKey)>>): Outcome<seq<(uint32, ExtKey)>> {
    if r.Ok? && r.value == [] then Fault else r
  }

  /** As written a call succeeds only when it asks for nothing, and then its commit callback
      faults: no transaction with a request ever ends well. */
  lemma AsWrittenNeverAllocates(c: Crypto, key: ExtKey, from: uint32, num: uint32, stored: Outcome<()>)
    ensures NextAsWritten(c, key, from, num, stored) == Some(Ok([])) <==> num == 0
    ensures num != 0 && NextAsWritten(c, key, from, num, stored).Some? ==>
            !NextAsWritten(c, key, from, num, stored).value.Ok?
    ensures NextAsWritten(c, key, from, num, stored).Some? ==>
            !CommitAsWritten(NextAsWritten(c, key, from, num, stored).value).Ok?
  {
    if DerivedAsWritten(c, key, from, 0, num).Returns? {
      DerivedAsWrittenAt(c, key, from, 0, num, 0);
    }
  }
}
