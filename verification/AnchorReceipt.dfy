/** Waiting for the independent proof that a submitted anchor is finalized
    (`wait_for_finalized_anchor_receipt` in vidaio/chain/anchor_receipt.py). The chain is read only:
    what each poll of it would answer is a parameter, and so is the time the reads and sleeps take.
    Times are whole ticks of any length. */
module AnchorReceipt {
  import opened Wrappers
  import opened Hex

  /** An integer as the adapter returns it; Python's booleans are integers too and are refused. */
  datatype Raw = Whole(n: int) | Boolean

  /** One turn of the loop. An outer None is a failed read, an inner None "not there". `archive` is
      the answer for the block that is latched by then. `spent` is the time of the reads, `overslept`
      what a sleep takes beyond the request. */
  datatype Turn = Turn(
    slotDigest: Option<string>, slotBlock: Option<Raw>, slotFails: bool, finalized: Option<Raw>,
    blockHash: Option<Option<string>>, archive: Option<Option<string>>, spent: nat, overslept: nat)

  datatype Receipt = Receipt(block: int, blockHash: Option<string>)

  datatype ReceiptError = BadArgument | Malformed | Mismatch | TimedOut

  /** 64 lower-case hex digits. */
  predicate CanonicalDigest(s: string) {
    |s| == 64 && forall i :: 0 <= i < 64 ==> s[i] in DIGITS
  }

  // -- what the turns show -----------------------------------------------------------------

  /** The commitment slot shows the submitted anchor and where it was included. */
  predicate Exposes(t: Turn, expected: string) {
    !t.slotFails && t.slotDigest == Some(expected) && t.slotBlock.Some?
  }

  ghost predicate Unexposed(turns: nat -> Turn, expected: string, n: nat) {
    forall k: nat :: k < n ==> !Exposes(turns(k), expected)
  }

  /** Within the first `n` turns the block was settled: by the caller, or by the first turn that
      exposes the anchor. */
  ghost predicate Latched(turns: nat -> Turn, expected: string, given: Option<int>, n: nat, block: int) {
    if given.Some? then block == given.value
    else exists j: nat :: j < n && Exposes(turns(j), expected) && turns(j).slotBlock == Some(Whole(block))
                          && Unexposed(turns, expected, j)
  }

  /** What the loop knows about the inclusion block after `n` turns. */
  ghost predicate LatchOk(turns: nat -> Turn, expected: string, given: Option<int>, n: nat, inclusion: Option<int>) {
    if inclusion.Some? then 0 <= inclusion.value && Latched(turns, expected, given, n, inclusion.value)
    else given.None? && Unexposed(turns, expected, n)
  }

  /** In this turn the block was at or below the finalized head. */
  predicate HeadReached(t: Turn, block: int) {
    t.finalized.Some? && t.finalized.value.Whole? && block <= t.finalized.value.n
  }

  /** The block hash that a receipt carries, if one is asked for. */
  predicate HashRead(t: Turn, requireHash: bool, hash: Option<string>) {
    if requireHash then hash.Some? && CanonicalDigest(hash.value) && t.blockHash == Some(hash) else hash.None?
  }

  /** The archive state of the block was read below an observed finalized head. */
  predicate ReadFinalized(t: Turn, block: int, digest: Option<string>) {
    HeadReached(t, block) && t.archive == Some(digest)
  }

  ghost predicate ProvenBy(turns: nat -> Turn, expected: string, given: Option<int>, requireHash: bool, i: nat,
                           r: Receipt) {
    && Latched(turns, expected, given, i + 1, r.block) && 0 <= r.block
    && ReadFinalized(turns(i), r.block, Some(expected)) && HashRead(turns(i), requireHash, r.blockHash)
  }

  /** Turn `i` proves the latched block. */
  ghost predicate Provable(turns: nat -> Turn, expected: string, given: Option<int>, requireHash: bool, i: nat) {
    exists r :: ProvenBy(turns, expected, given, requireHash, i, r)
  }

  /** A block is only ever latched once. */
  lemma LatchedOnce(turns: nat -> Turn, expected: string, given: Option<int>, n: nat, m: nat, a: int, b: int)
    requires Latched(turns, expected, given, n, a) && Latched(turns, expected, given, m, b)
    ensures a == b
  {
    if given.None? {
      var j: nat :| j < n && Exposes(turns(j), expected) && turns(j).slotBlock == Some(Whole(a))
                    && Unexposed(turns, expected, j);
      var k: nat :| k < m && Exposes(turns(k), expected) && turns(k).slotBlock == Some(Whole(b))
                    && Unexposed(turns, expected, k);
      assert j == k;
    }
  }

  // -- one turn -------------------------------------------------------------------------------

  datatype Step = Latch(block: int) | Retry | Fail(error: ReceiptError)

  method ReadSlot(t: Turn, expected: string) returns (s: Step)
    ensures s.Latch? <==> Exposes(t, expected) && t.slotBlock.value.Whole? && 0 <= t.slotBlock.value.n
    ensures s.Latch? ==> t.slotBlock == Some(Whole(s.block))
    ensures s.Retry? <==> !Exposes(t, expected)
    ensures s.Fail? ==> s.error == Malformed
  {
    if t.slotFails {
      return Retry;
    }
    if t.slotDigest != Some(expected) || t.slotBlock.None? {
      return Retry;
    }
    match t.slotBlock.value {
      case Boolean => return Fail(Malformed);
      case Whole(n) => return if n < 0 then Fail(Malformed) else Latch(n);
    }
  }

  /** What the adapter must never answer once the block is latched. */
  predicate Malforms(t: Turn, block: int, requireHash: bool) {
    || t.finalized == Some(Boolean)
    || (&& HeadReached(t, block) && requireHash && t.blockHash.Some? && t.blockHash.value.Some?
        && !CanonicalDigest(t.blockHash.value.value))
  }

  /** The finalized head, the block hash if it is asked for, and the archive, in this order: each one
      decides before the next one is looked at. */
  method ReadReceipt(t: Turn, expected: string, block: int, requireHash: bool)
    returns (s: Step, hash: Option<string>)
    ensures s.Latch? <==> ReadFinalized(t, block, Some(expected)) && exists h :: HashRead(t, requireHash, h)
    ensures s.Latch? ==> s.block == block && HashRead(t, requireHash, hash)
    ensures s == Fail(Malformed) <==> Malforms(t, block, requireHash)
    ensures s == Fail(Mismatch) <==> && HeadReached(t, block) && (exists h :: HashRead(t, requireHash, h))
                                     && t.archive.Some? && t.archive.value != Some(expected)
    ensures s.Fail? ==> s.error == Malformed || s.error == Mismatch
  {
    hash := None;
    if t.finalized.None? {
      return Retry, None;
    }
    if t.finalized.value.Boolean? {
      return Fail(Malformed), None;
    }
    if t.finalized.value.n < block {
      return Retry, None;
    }
    if requireHash {
      if t.blockHash.None? || t.blockHash.value.None? {
        return Retry, None;
      }
      if !CanonicalDigest(t.blockHash.value.value) {
        return Fail(Malformed), None;
      }
      hash := t.blockHash.value;
    }
    assert HashRead(t, requireHash, hash);
    if t.archive.None? {
      return Retry, None;
    }
    if t.archive.value != Some(expected) {
      return Fail(Mismatch), None;
    }
    return Latch(block), hash;
  }

  /** In turn `n` the slot exposed the anchor for the first time, with no usable block; or an answer
      about the latched block was malformed. */
  ghost predicate MalformedIn(turns: nat -> Turn, expected: string, given: Option<int>, requireHash: bool, n: nat) {
    || (&& given.None? && Unexposed(turns, expected, n) && Exposes(turns(n), expected)
        && (turns(n).slotBlock.value.Boolean? || turns(n).slotBlock.value.n < 0))
    || exists block :: Latched(turns, expected, given, n + 1, block) && Malforms(turns(n), block, requireHash)
  }

  /** The archive state of the latched, finalized block held something else. */
  ghost predicate MismatchIn(turns: nat -> Turn, expected: string, given: Option<int>, n: nat) {
    exists block, digest :: Latched(turns, expected, given, n + 1, block) && digest != Some(expected)
                            && ReadFinalized(turns(n), block, digest)
  }

  /** Without a usable block the turn proves nothing. */
  lemma NoBlockNoProof(turns: nat -> Turn, n: nat, expected: string, given: Option<int>, requireHash: bool)
    requires given.None? && Unexposed(turns, expected, n)
    requires Exposes(turns(n), expected) ==> turns(n).slotBlock.value.Boolean? || turns(n).slotBlock.value.n < 0
    ensures !Provable(turns, expected, given, requireHash, n)
  {
    forall r ensures !ProvenBy(turns, expected, given, requireHash, n, r) {
      forall j: nat | j < n + 1 && Exposes(turns(j), expected) ensures j == n {}
    }
  }

  /** With the latched block the turn proves what its own answers prove. */
  lemma BlockDecides(turns: nat -> Turn, n: nat, expected: string, given: Option<int>, requireHash: bool, block: int)
    requires Latched(turns, expected, given, n + 1, block)
    requires !(ReadFinalized(turns(n), block, Some(expected)) && exists h :: HashRead(turns(n), requireHash, h))
    ensures !Provable(turns, expected, given, requireHash, n)
  {
    forall r ensures !ProvenBy(turns, expected, given, requireHash, n, r) {
      if Latched(turns, expected, given, n + 1, r.block) {
        LatchedOnce(turns, expected, given, n + 1, n + 1, block, r.block);
      }
    }
  }

  /** Why the wait ended without a receipt. */
  ghost predicate EndsFor(turns: nat -> Turn, expected: string, given: Option<int>, requireHash: bool,
                          deadline: int, n: nat, finish: int, error: ReceiptError)
  {
    && !Provable(turns, expected, given, requireHash, n)
    && match error
       case TimedOut => deadline <= finish
       case Mismatch => MismatchIn(turns, expected, given, n)
       case Malformed => MalformedIn(turns, expected, given, requireHash, n)
       case BadArgument => false
  }

  /** The body of the loop up to the wait. */
  method TakeTurn(turns: nat -> Turn, n: nat, expected: string, given: Option<int>, requireHash: bool,
                  before: Option<int>)
    returns (s: Step, inclusion: Option<int>, hash: Option<string>)
    requires LatchOk(turns, expected, given, n, before)
    ensures s.Latch? ==> inclusion == Some(s.block)
                         && ProvenBy(turns, expected, given, requireHash, n, Receipt(s.block, hash))
    ensures !s.Latch? ==> !Provable(turns, expected, given, requireHash, n)
    ensures s.Retry? ==> LatchOk(turns, expected, given, n + 1, inclusion)
    ensures s.Fail? ==> forall deadline, now :: EndsFor(turns, expected, given, requireHash, deadline, n, now, s.error)
    ensures s.Fail? ==> !s.error.TimedOut?
  {
    inclusion, hash := before, None;
    if inclusion.None? {
      s := ReadSlot(turns(n), expected);
      if !s.Latch? {
        NoBlockNoProof(turns, n, expected, given, requireHash);
        return;
      }
      inclusion := Some(s.block);
    }
    var block := inclusion.value;
    assert Latched(turns, expected, given, n + 1, block);
    s, hash := ReadReceipt(turns(n), expected, block, requireHash);
    if !s.Latch? { BlockDecides(turns, n, expected, given, requireHash, block); }
    if s == Fail(Mismatch) {
      assert ReadFinalized(turns(n), block, turns(n).archive.value);
    }
  }

  function Least(a: int, b: int): int { if a <= b then a else b }

  /** The clock when the reads of turn `i` are done, if every turn before was followed by a wait. */
  function Clock(turns: nat -> Turn, start: int, timeout: int, poll: int, i: nat): int {
    if i == 0 then start + turns(0).spent
    else
      var before := Clock(turns, start, timeout, poll, i - 1);
      before + Least(poll, start + timeout - before) + turns(i - 1).overslept + turns(i).spent
  }

  /** What `n` full sleeps take. */
  function Slept(n: nat, poll: int): int {
    if n == 0 then 0 else Slept(n - 1, poll) + poll
  }

  lemma {:induction false} SleptIsProduct(n: nat, poll: int)
    ensures Slept(n, poll) == n * poll
  {
    if n > 0 { SleptIsProduct(n - 1, poll); }
  }

  /** The turns before `n` proved nothing and were over before the deadline. */
  ghost predicate NothingBefore(turns: nat -> Turn, expected: string, given: Option<int>, requireHash: bool,
                                start: int, timeout: int, poll: int, n: nat)
  {
    forall i: nat :: i < n ==>
      !Provable(turns, expected, given, requireHash, i) && Clock(turns, start, timeout, poll, i) < start + timeout
  }

  /** The clock before turn `n` is looked at, and how much of it was slept away. */
  ghost predicate ClockOk(turns: nat -> Turn, start: int, timeout: int, poll: int, n: nat, now: int) {
    && now == Clock(turns, start, timeout, poll, n)
    && Slept(n, poll) >= 0 && now >= start + Least(Slept(n, poll), timeout)
    && (n > 0 ==> Slept(n - 1, poll) < timeout)
  }

  lemma ClockMoves(turns: nat -> Turn, start: int, timeout: int, poll: int, n: nat, now: int)
    requires 0 < timeout && 0 < poll && ClockOk(turns, start, timeout, poll, n, now) && now < start + timeout
    ensures var later := now + Least(poll, start + timeout - now) + turns(n).overslept + turns(n + 1).spent;
            ClockOk(turns, start, timeout, poll, n + 1, later) && now < later
  {}

  lemma NothingMore(turns: nat -> Turn, expected: string, given: Option<int>, requireHash: bool,
                    start: int, timeout: int, poll: int, n: nat)
    requires NothingBefore(turns, expected, given, requireHash, start, timeout, poll, n)
    requires !Provable(turns, expected, given, requireHash, n) &&
             Clock(turns, start, timeout, poll, n) < start + timeout
    ensures NothingBefore(turns, expected, given, requireHash, start, timeout, poll, n + 1)
  {}

  /** The wait before the next turn; nothing is waited for once the time is over. */
  method Wait(turns: nat -> Turn, expected: string, given: Option<int>, requireHash: bool,
              start: int, timeout: int, poll: int, n: nat, now: int)
    returns (later: int)
    requires 0 < timeout && 0 < poll && ClockOk(turns, start, timeout, poll, n, now)
    requires NothingBefore(turns, expected, given, requireHash, start, timeout, poll, n)
    requires !Provable(turns, expected, given, requireHash, n)
    ensures now >= start + timeout ==> later == now
    ensures now < start + timeout ==>
              && now < later && ClockOk(turns, start, timeout, poll, n + 1, later)
              && NothingBefore(turns, expected, given, requireHash, start, timeout, poll, n + 1)
  {
    var remaining := start + timeout - now;
    if remaining <= 0 {
      return now;
    }
    ClockMoves(turns, start, timeout, poll, n, now);
    NothingMore(turns, expected, given, requireHash, start, timeout, poll, n);
    return now + Least(poll, remaining) + turns(n).overslept + turns(n + 1).spent;
  }

  method PollUntilDeadline(turns: nat -> Turn, expected: string, timeout: int, poll: int,
                           given: Option<int>, requireHash: bool, start: int)
    returns (r: Result<Receipt, ReceiptError>, retries: nat, last: nat, finish: int)
    requires 0 < timeout && 0 < poll && (given.Some? ==> 0 <= given.value)
    ensures ClockOk(turns, start, timeout, poll, last, finish)
    ensures retries == if r == Failure(TimedOut) then last + 1 else last
    ensures NothingBefore(turns, expected, given, requireHash, start, timeout, poll, last)
    ensures r.Success? ==> ProvenBy(turns, expected, given, requireHash, last, r.value)
    ensures r.Failure? ==> EndsFor(turns, expected, given, requireHash, start + timeout, last, finish, r.error)
  {
    retries, last := 0, 0;
    var deadline := start + timeout;
    finish := start + turns(0).spent;
    var inclusion := given;
    while true
      invariant last == retries && ClockOk(turns, start, timeout, poll, last, finish)
      invariant LatchOk(turns, expected, given, last, inclusion)
      invariant NothingBefore(turns, expected, given, requireHash, start, timeout, poll, last)
      decreases deadline - finish
    {
      var s, hash;
      s, inclusion, hash := TakeTurn(turns, last, expected, given, requireHash, inclusion);
      match s {
        case Latch(block) => return Success(Receipt(block, hash)), retries, last, finish;
        case Fail(error) => return Failure(error), retries, last, finish;
        case Retry =>
      }
      retries := retries + 1;
      var later := Wait(turns, expected, given, requireHash, start, timeout, poll, last, finish);
      if deadline <= finish {
        return Failure(TimedOut), retries, last, finish;
      }
      finish, last := later, last + 1;
    }
  }

  lemma {:induction false} SleptGrows(n: nat, m: nat, poll: int)
    requires n <= m && 0 <= poll
    ensures Slept(n, poll) <= Slept(m, poll)
    decreases m
  {
    if n < m { SleptGrows(n, m - 1, poll); }
  }

  lemma FewRetries(turns: nat -> Turn, start: int, timeout: int, poll: int, last: nat, finish: int, retries: nat)
    requires 0 < poll && ClockOk(turns, start, timeout, poll, last, finish) && 2 <= retries <= last + 1
    ensures (retries - 2) * poll < timeout
  {
    SleptIsProduct(retries - 2, poll);
    SleptGrows(retries - 2, last - 1, poll);
  }

  /** A receipt is only returned for a block that, once latched, was at or below an observed finalized
      head and whose archive digest was the expected one; and the first turn that proves it yields it,
      as long as the turns before were over before the deadline and none of them failed. A timeout
      means that the time really is over. Nothing is written. Every turn but the last one retries, and
      the last one of a timeout retries too before it gives up; however long the reads and however late
      the sleeps, the retries are at most ceil(timeout / poll) + 1. */
  method WaitForFinalizedAnchorReceipt(turns: nat -> Turn, expected: string, timeout: int, poll: int,
                                       given: Option<int>, requireHash: bool, start: int)
    returns (r: Result<Receipt, ReceiptError>, retries: nat, last: nat, finish: int)
    ensures r == Failure(BadArgument) <==>
              timeout <= 0 || poll <= 0 || !CanonicalDigest(expected) || (given.Some? && given.value < 0)
    ensures r != Failure(BadArgument) ==>
              && finish == Clock(turns, start, timeout, poll, last)
              && NothingBefore(turns, expected, given, requireHash, start, timeout, poll, last)
    ensures retries == if r == Failure(TimedOut) then last + 1 else last
    ensures r.Success? ==> ProvenBy(turns, expected, given, requireHash, last, r.value)
    ensures r.Failure? && !r.error.BadArgument? ==>
              EndsFor(turns, expected, given, requireHash, start + timeout, last, finish, r.error)
    ensures 2 <= retries ==> (retries - 2) * poll < timeout
  {
    retries, last, finish := 0, 0, start;
    if timeout <= 0 || poll <= 0 || !CanonicalDigest(expected) || (given.Some? && given.value < 0) {
      return Failure(BadArgument), retries, last, finish;
    }
    r, retries, last, finish := PollUntilDeadline(turns, expected, timeout, poll, given, requireHash, start);
    if 2 <= retries { FewRetries(turns, start, timeout, poll, last, finish, retries); }
  }

  /** The converse, for any outcome that meets this contract: a turn that proves the block, with every
      turn before it in time and without a fault, is the one the receipt comes from, unless an earlier
      one proved it already. */
  lemma ProvableTurnYields(turns: nat -> Turn, expected: string, timeout: int, poll: int, given: Option<int>,
                           requireHash: bool, start: int, i: nat, r: Result<Receipt, ReceiptError>, last: nat)
    requires Provable(turns, expected, given, requireHash, i)
    requires forall k: nat :: k < i ==>
               && Clock(turns, start, timeout, poll, k) < start + timeout
               && !MalformedIn(turns, expected, given, requireHash, k) && !MismatchIn(turns, expected, given, k)
    requires NothingBefore(turns, expected, given, requireHash, start, timeout, poll, last)
    requires r.Failure? ==> EndsFor(turns, expected, given, requireHash, start + timeout, last,
                                    Clock(turns, start, timeout, poll, last), r.error)
    ensures r.Success? && last <= i
  {}

  // -- a receipt in terms of the answers alone -----------------------------------------------

  predicate HexDigest(s: string) {
    |s| == 64 && forall i :: 0 <= i < 64 ==> IsHex(s[i])
  }

  lemma DigestsAreHex(s: string)
    ensures CanonicalDigest(s) <==> HexDigest(s)
  {
    forall c: char ensures c in DIGITS <==> IsHex(c) { HexDigits(c); }
  }

  /** The slot answered in full with the expected digest. */
  predicate Shows(t: Turn, expected: string) {
    !t.slotFails && t.slotDigest == Some(expected) && t.slotBlock != None
  }

  /** The block is the caller's, or that of the first turn up to `i` whose slot shows the anchor. */
  ghost predicate BlockOf(turns: nat -> Turn, expected: string, given: Option<int>, i: nat, block: int) {
    if given != None then given == Some(block)
    else exists j: nat :: && j <= i && Shows(turns(j), expected) && turns(j).slotBlock == Some(Whole(block))
                          && forall k: nat :: k < j ==> !Shows(turns(k), expected)
  }

  /** What a receipt of turn `i` stands for: its block is settled and at or below a finalized head that was
      read, the archive there holds the expected digest, and the hash, if one was asked for, is 64 hex digits. */
  lemma ReceiptExactlyWhen(turns: nat -> Turn, expected: string, given: Option<int>, requireHash: bool, i: nat,
                           r: Receipt)
    ensures ProvenBy(turns, expected, given, requireHash, i, r) <==>
              && BlockOf(turns, expected, given, i, r.block) && 0 <= r.block
              && (exists head :: turns(i).finalized == Some(Whole(head)) && r.block <= head)
              && turns(i).archive == Some(Some(expected))
              && (if requireHash then r.blockHash != None && turns(i).blockHash == Some(r.blockHash)
                                      && HexDigest(r.blockHash.value)
                  else r.blockHash == None)
  {
    if r.blockHash.Some? { DigestsAreHex(r.blockHash.value); }
    LatchIsBlockOf(turns, expected, given, i, r.block);
    if turns(i).finalized.Some? && turns(i).finalized.value.Whole? {
      assert turns(i).finalized == Some(Whole(turns(i).finalized.value.n));
    }
  }

  /** A turn fails the wait for a head that is a boolean, for a hash of the reached block that is not 64 hex
      digits, and, given the hash, for an archive that answers with anything but the expected digest. */
  lemma FaultsExactlyWhen(t: Turn, expected: string, block: int, requireHash: bool)
    ensures Malforms(t, block, requireHash) <==>
              || t.finalized == Some(Boolean)
              || (&& requireHash && (exists head :: t.finalized == Some(Whole(head)) && block <= head)
                  && exists h :: t.blockHash == Some(Some(h)) && !HexDigest(h))
    ensures (exists digest :: digest != Some(expected) && ReadFinalized(t, block, digest)) <==>
              && (exists head :: t.finalized == Some(Whole(head)) && block <= head)
              && t.archive != None && t.archive != Some(Some(expected))
  {
    if t.blockHash.Some? && t.blockHash.value.Some? {
      DigestsAreHex(t.blockHash.value.value);
      assert t.blockHash == Some(Some(t.blockHash.value.value));
    }
    if t.finalized.Some? && t.finalized.value.Whole? { assert t.finalized == Some(Whole(t.finalized.value.n)); }
    if t.archive.Some? { assert HeadReached(t, block) ==> ReadFinalized(t, block, t.archive.value); }
  }

  lemma LatchIsBlockOf(turns: nat -> Turn, expected: string, given: Option<int>, i: nat, block: int)
    ensures Latched(turns, expected, given, i + 1, block) <==> BlockOf(turns, expected, given, i, block)
  {
    forall j: nat ensures Exposes(turns(j), expected) <==> Shows(turns(j), expected) {}
    if given.None? {
      if Latched(turns, expected, given, i + 1, block) {
        var j: nat :| j < i + 1 && Exposes(turns(j), expected) && turns(j).slotBlock == Some(Whole(block))
                      && Unexposed(turns, expected, j);
        assert Shows(turns(j), expected) && forall k: nat :: k < j ==> !Shows(turns(k), expected);
      }
      if BlockOf(turns, expected, given, i, block) {
        var j: nat :| j <= i && Shows(turns(j), expected) && turns(j).slotBlock == Some(Whole(block))
                      && forall k: nat :: k < j ==> !Shows(turns(k), expected);
        assert Exposes(turns(j), expected) && Unexposed(turns, expected, j);
      }
    }
  }

  /** A wait sleeps one poll, or what is left of the time if that is less; so no sleep reaches beyond the
      deadline on its own account. */
  lemma SleepsFit(turns: nat -> Turn, start: int, timeout: int, poll: int, i: nat)
    requires 0 < poll && Clock(turns, start, timeout, poll, i) < start + timeout
    ensures var now, next := Clock(turns, start, timeout, poll, i), Clock(turns, start, timeout, poll, i + 1);
            var slept := next - now - turns(i).overslept - turns(i + 1).spent;
            && 0 < slept <= poll && now + slept <= start + timeout
            && (slept == poll || now + slept == start + timeout)
  {}
}
