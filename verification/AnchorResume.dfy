/** A resumed anchor submission gets there: what one undisturbed `anchor_epoch`
    (vidaio/authority/anchoring.py) achieves from any state that crashes can leave behind, once the
    node reports the finalized inclusion of the hash that was recorded. */
module AnchorResume {
  import opened Wrappers
  import opened EpochIndex
  import opened WriterLane
  import opened AnchorProtocol
  import opened AnchorSafety
  import opened AnchorRecovery
  import opened AnchorCalls

  /** `n` steps of `p`, with the same answer whenever a step asks. */
  function Answered(s: State, p: Pid, answer: Answer, n: nat): State
    decreases n
  {
    if n == 0 then s else Answered(Step(s, p, answer), p, answer, n - 1)
  }

  function CallAnswered(s: State, p: Pid, job: Job, answer: Answer): State {
    Answered(Goto(s, p, PeekJournal(job)), p, answer, 12)
  }

  lemma OneAnswered(s: State, p: Pid, answer: Answer, n: nat)
    requires 0 < n
    ensures Answered(s, p, answer, n) == Answered(Step(s, p, answer), p, answer, n - 1)
  {}

  lemma {:induction false} IdleAnswered(s: State, p: Pid, answer: Answer, n: nat)
    requires PcOf(s, p).Idle?
    ensures Answered(s, p, answer, n) == s
    decreases n
  {
    if n > 0 { IdleAnswered(s, p, answer, n - 1); }
  }

  predicate Asks(pc: Pc) { pc.PrepareOrResume? || pc.AwaitInclusion? }

  lemma OnlyAskersListen(s: State, p: Pid, answer: Answer)
    requires !Asks(PcOf(s, p))
    ensures Step(s, p, answer) == Step(s, p, Nothing)
  {}

  /** A step of a caller in the lane that asks nothing, by what the step is known to do. */
  lemma Onward(s: State, p: Pid, answer: Answer, n: nat, w: World, pc: Pc)
    requires !Asks(PcOf(s, p)) && 0 < n && GoesOn(Step(s, p, Nothing), p, w, pc)
    ensures Answered(s, p, answer, n) == Answered(Step(s, p, answer), p, answer, n - 1)
    ensures GoesOn(Step(s, p, answer), p, w, pc)
  {
    OnlyAskersListen(s, p, answer);
    OneAnswered(s, p, answer, n);
  }

  // -- from the inclusion back to the start -------------------------------------------------

  lemma LowersAtLast(s: State, p: Pid, answer: Answer, n: nat, txid: TxHash)
    requires s.lock == Some(p) && PcOf(s, p) == LowerFence(txid) && Admits(s.w.fence, Some(txid)) && 1 <= n
    ensures Returned(Answered(s, p, answer, n), p, s.w.(fence := None))
  {
    LowerMove(s, p, txid);
    OnlyAskersListen(s, p, answer);
    OneAnswered(s, p, answer, n);
    IdleAnswered(Step(s, p, answer), p, answer, n - 1);
  }

  lemma StoresInclusion(s: State, p: Pid, answer: Answer, n: nat, job: Job, ev: Evidence, block: int)
    requires s.lock == Some(p) && PcOf(s, p) == StoreAnchor(job, ev, block) && Admits(s.w.fence, Some(ev.txid)) &&
             3 <= n
    requires Anchorable(s.w.db, job.epochId, ev.txid, block)
    ensures Returned(Answered(s, p, answer, n), p,
                     World(WithInclusion(s.w.db, job.epochId, ev.txid, block), None, s.w.chain))
  {
    InclusionMove(s, p, job, ev, block);
    var anchored := s.w.(db := WithAnchor(s.w.db, job.epochId, ev.txid, Some(block)).value);
    Onward(s, p, answer, n, anchored, StoreConfirmed(ev.txid, Some(block)));
    var s1 := Step(s, p, answer);
    OutcomeMove(s1, p, ev.txid, Confirmed(Some(block)));
    var done := anchored.(db := WithInclusion(s.w.db, job.epochId, ev.txid, block));
    Onward(s1, p, answer, n - 1, done, LowerFence(ev.txid));
    LowersAtLast(Step(s1, p, answer), p, answer, n - 2, ev.txid);
  }

  lemma ConfirmsInclusion(s: State, p: Pid, answer: Answer, n: nat, job: Job, ev: Evidence)
    requires s.lock == Some(p) && PcOf(s, p) == AwaitInclusion(job, ev) && Admits(s.w.fence, Some(ev.txid)) && 4 <= n
    requires var verdict := Verdict(s.w.chain, ev, job.confirmationDepth, answer);
             verdict.Found? && Anchorable(s.w.db, job.epochId, ev.txid, verdict.block)
    ensures var block := Verdict(s.w.chain, ev, job.confirmationDepth, answer).block;
            Returned(Answered(s, p, answer, n), p,
                     World(WithInclusion(s.w.db, job.epochId, ev.txid, block), None, s.w.chain))
  {
    AwaitMove(s, p, job, ev, answer);
    OneAnswered(s, p, answer, n);
    var block := Verdict(s.w.chain, ev, job.confirmationDepth, answer).block;
    StoresInclusion(Step(s, p, answer), p, answer, n - 1, job, ev, block);
  }

  /** The recorded hash is fenced again and waited for; nothing is sent. */
  lemma RaisesAgain(s: State, p: Pid, answer: Answer, n: nat, job: Job, ev: Evidence)
    requires s.lock == Some(p) && PcOf(s, p) == RaiseFence(job, ev, false) && Admits(s.w.fence, Some(ev.txid)) && 5 <= n
    requires var verdict := Verdict(s.w.chain, ev, job.confirmationDepth, answer);
             verdict.Found? && Anchorable(s.w.db, job.epochId, ev.txid, verdict.block)
    ensures var block := Verdict(s.w.chain, ev, job.confirmationDepth, answer).block;
            Returned(Answered(s, p, answer, n), p,
                     World(WithInclusion(s.w.db, job.epochId, ev.txid, block), None, s.w.chain))
  {
    RaiseMove(s, p, job, ev, false);
    var fence := WithMark(s.w.fence, Marker(ev.txid, job.epochId, job.netuid, job.logDigest, ev)).value;
    Onward(s, p, answer, n, s.w.(fence := fence), AwaitInclusion(job, ev));
    ConfirmsInclusion(Step(s, p, answer), p, answer, n - 1, job, ev);
  }

  lemma ResumesInLane(s: State, p: Pid, answer: Answer, n: nat, job: Job, pending: Option<TxHash>)
    requires s.lock == Some(p) && PcOf(s, p) == CheckAnchored(job, pending) && 7 <= n
    requires Unanchored(s.w.db, job.epochId) && Resumes(s.w.db, s.w.fence, s.w.chain, job, answer)
    ensures Returned(Answered(s, p, answer, n), p,
                     World(Resumed(s.w.db, s.w.fence, s.w.chain, job, answer), None, s.w.chain))
  {
    CheckAnchoredMove(s, p, job, pending);
    Onward(s, p, answer, n, s.w, PrepareOrResume(job));
    var s1 := Step(s, p, answer);
    ResumeMove(s1, p, job, answer);
    OneAnswered(s1, p, answer, n - 1);
    RaisesAgain(Step(s1, p, answer), p, answer, n - 2, job, Newest(s.w.db, job.epochId).value.evidence);
  }

  /** A fence whose row is over is lowered before the epoch is looked at. */
  lemma DropsInLane(s: State, p: Pid, answer: Answer, n: nat, job: Job, txid: TxHash)
    requires s.lock == Some(p) && PcOf(s, p) == DropStaleFence(job, txid) && Admits(s.w.fence, Some(txid)) && 8 <= n
    requires Unanchored(s.w.db, job.epochId) && Resumes(s.w.db, None, s.w.chain, job, answer)
    ensures Returned(Answered(s, p, answer, n), p,
                     World(Resumed(s.w.db, None, s.w.chain, job, answer), None, s.w.chain))
  {
    DropStaleMove(s, p, job, txid);
    Onward(s, p, answer, n, s.w.(fence := None), CheckAnchored(job, Some(txid)));
    ResumesInLane(Step(s, p, answer), p, answer, n - 1, job, Some(txid));
  }

  lemma RestoresStale(s: State, p: Pid, answer: Answer, n: nat, job: Job, m: Marker)
    requires s.lock == Some(p) && PcOf(s, p) == RestoreForAnchor(job, m) && s.w.fence == Some(m) && 9 <= n
    requires Restored(s.w.db, m) == Success(s.w.db) && RestoredFence(s.w.db, s.w.fence, m).None?
    requires Unanchored(s.w.db, job.epochId) && Resumes(s.w.db, None, s.w.chain, job, answer)
    ensures Returned(Answered(s, p, answer, n), p,
                     World(Resumed(s.w.db, None, s.w.chain, job, answer), None, s.w.chain))
  {
    RestoreMove(s, p, job, m);
    Onward(s, p, answer, n, s.w, DropStaleFence(job, m.txid));
    DropsInLane(Step(s, p, answer), p, answer, n - 1, job, m.txid);
  }

  lemma RestoresOwn(s: State, p: Pid, answer: Answer, n: nat, job: Job, m: Marker)
    requires s.lock == Some(p) && PcOf(s, p) == RestoreForAnchor(job, m) && s.w.fence == Some(m) && 9 <= n
    requires Restored(s.w.db, m) == Success(s.w.db) && RestoredFence(s.w.db, s.w.fence, m) == s.w.fence
    requires Unanchored(s.w.db, job.epochId) && Resumes(s.w.db, s.w.fence, s.w.chain, job, answer)
    ensures Returned(Answered(s, p, answer, n), p,
                     World(Resumed(s.w.db, s.w.fence, s.w.chain, job, answer), None, s.w.chain))
  {
    RestoreMove(s, p, job, m);
    Onward(s, p, answer, n, s.w, CheckAnchored(job, Some(m.txid)));
    ResumesInLane(Step(s, p, answer), p, answer, n - 1, job, Some(m.txid));
  }

  /** The own fence is looked at first. */
  lemma RestoresInLane(s: State, p: Pid, answer: Answer, n: nat, job: Job, m: Marker)
    requires s.lock == Some(p) && PcOf(s, p) == RestoreForAnchor(job, m) && s.w.fence == Some(m) && 9 <= n
    requires Restored(s.w.db, m) == Success(s.w.db)
    requires Unanchored(s.w.db, job.epochId) &&
             Resumes(s.w.db, RestoredFence(s.w.db, s.w.fence, m), s.w.chain, job, answer)
    ensures Returned(Answered(s, p, answer, n), p,
                     World(Resumed(s.w.db, RestoredFence(s.w.db, s.w.fence, m), s.w.chain, job, answer), None,
                           s.w.chain))
  {
    if RestoredFence(s.w.db, s.w.fence, m).None? {
      RestoresStale(s, p, answer, n, job, m);
    } else {
      RestoresOwn(s, p, answer, n, job, m);
    }
  }

  /** The reads before the lane and the entry. */
  lemma GetsIn(s: State, p: Pid, job: Job, answer: Answer)
    requires s.lock.None? && PcOf(s, p).Idle? && Admits(s.w.fence, Wanted(s.w, job))
    ensures var t := Goto(s, p, FirstInside(s.w, job)).(lock := Some(p));
            CallAnswered(s, p, job, answer) == Answered(t, p, answer, 9)
  {
    var s1 := Goto(s, p, PeekJournal(job));
    var peek := PeekFence(job, PendingOf(s.w, job));
    OneAnswered(s1, p, answer, 12);
    GotoTwice(s, p, PeekJournal(job), peek);
    OneAnswered(Goto(s, p, peek), p, answer, 11);
    GotoTwice(s, p, peek, Peeked(s.w, job));
    var s3 := Goto(s, p, Peeked(s.w, job));
    PeekedEnters(s, p, job);
    OnlyAskersListen(s3, p, answer);
    OneAnswered(s3, p, answer, 10);
    GotoTwice(s, p, Peeked(s.w, job), FirstInside(s.w, job));
  }

  /** From every reachable state in which the lane is free, no other epoch has the fence and the newest
      row of a served, unanchored epoch is open and was signed for this job: one undisturbed
      `anchor_epoch` that is told of the finalized inclusion anchors the epoch with that hash at that
      block, confirms the row, leaves no fence, and sends nothing. */
  lemma ResumedCallAnchors(s: State, p: Pid, job: Job, answer: Answer)
    requires Reachable(s) && s.lock.None? && PcOf(s, p).Idle? && ResumesOutside(s.w, job, answer)
    ensures var t := CallAnswered(s, p, job, answer);
            Gone(t, p) && Completed(s.w, job, answer, t.w)
  {
    ReachableInv(s);
    ResumesInside(s.w, job, answer);
    GetsIn(s, p, job, answer);
    var t := Goto(s, p, FirstInside(s.w, job)).(lock := Some(p));
    if OwnFence(s.w, job).Some? {
      RestoredIsNoOp(s.w.db, s.w.fence.value);
      RestoresInLane(t, p, answer, 9, job, s.w.fence.value);
    } else {
      ResumesInLane(t, p, answer, 9, job, PendingOf(s.w, job));
    }
  }

  /** The condition in terms of what can be looked up: the open row was signed for this job, and its
      hash is on chain at a finalized block. */
  lemma RecordedHashOnChainAnchors(s: State, p: Pid, job: Job, block: int)
    requires Reachable(s) && s.lock.None? && PcOf(s, p).Idle?
    requires Get(s.w.db, job.epochId).Some? && s.w.db.epochs[job.epochId].anchorTxid.None?
    requires Newest(s.w.db, job.epochId).Some? && Newest(s.w.db, job.epochId).value.outcome.None?
    requires var row := Newest(s.w.db, job.epochId).value; row.netuid == job.netuid && row.logDigest == job.logDigest
    requires s.w.fence.None? || s.w.fence.value.epochId == job.epochId
    requires OnChain(s.w.chain, Newest(s.w.db, job.epochId).value.evidence.txid, block)
    ensures var txid, t := Newest(s.w.db, job.epochId).value.evidence.txid, CallAnswered(s, p, job, Included(block));
            && Gone(t, p) && t.w.fence.None? && t.w.chain == s.w.chain
            && Get(t.w.db, job.epochId) ==
                 Some(EpochRow(s.w.db.epochs[job.epochId].pointer, Some(txid), Some(block)))
            && ByHash(t.w.db, txid).Some? && ByHash(t.w.db, txid).value.outcome == Some(Confirmed(Some(block)))
  {
    ResumedCallAnchors(s, p, job, Included(block));
  }
}
