/** What every interleaving of the anchor protocol keeps, and what follows for the chain. */
module AnchorSafety {
  import opened Wrappers
  import opened EpochIndex
  import opened WriterLane
  import opened AnchorProtocol

  // -- the invariant ---------------------------------------------------------

  ghost predicate Unresolved(db: Db, txid: TxHash) {
    var r := RowOf(db.journal, txid);
    r < |db.journal| && db.journal[r].outcome.None?
  }

  ghost predicate Terminal(db: Db, txid: TxHash) {
    var r := RowOf(db.journal, txid);
    r < |db.journal| && db.journal[r].outcome.Some?
  }

  /** The journal holds exactly this submission, whatever became of it. */
  ghost predicate Journaled(db: Db, row: Submission) {
    var r := RowOf(db.journal, row.evidence.txid);
    r < |db.journal| && db.journal[r].(outcome := None) == row.(outcome := None)
  }

  function RowOfMarker(m: Marker): Submission { Submission(m.epochId, m.netuid, m.logDigest, m.evidence, None) }

  function RowOfJob(job: Job, ev: Evidence): Submission {
    Submission(job.epochId, job.netuid, job.logDigest, ev, None)
  }

  /** A marker repeats a journal row. */
  ghost predicate Backed(db: Db, m: Marker) {
    m.txid == m.evidence.txid && Journaled(db, RowOfMarker(m))
  }

  ghost predicate Unanchored(db: Db, epochId: int) {
    epochId in db.epochs ==> db.epochs[epochId].anchorTxid.None?
  }

  /** Not on chain, and its era is finalized: it can never land any more. */
  ghost predicate GoneForGood(chain: Chain, ev: Evidence) {
    ev.txid !in chain.landed && ev.mortalEra.Some? && ev.submitBlock + ev.mortalEra.value < chain.head
  }

  ghost predicate OnChain(chain: Chain, txid: TxHash, block: int) {
    txid in chain.landed && chain.landed[txid] == block <= chain.head
  }

  ghost predicate FenceNames(fence: Option<Marker>, txid: TxHash) {
    fence.Some? && fence.value.txid == txid
  }

  /** An anchored epoch names a journaled hash that really is on chain at that block, and no
      fence of that epoch names another hash. */
  ghost predicate AnchorOk(w: World, e: int)
    requires e in w.db.epochs && w.db.epochs[e].anchorTxid.Some?
  {
    var row := w.db.epochs[e];
    var r := RowOf(w.db.journal, row.anchorTxid.value);
    && row.anchorBlock.Some? && OnChain(w.chain, row.anchorTxid.value, row.anchorBlock.value)
    && r < |w.db.journal| && w.db.journal[r].epochId == e
    && (w.fence.Some? && w.fence.value.epochId == e ==> w.fence.value.txid == row.anchorTxid.value)
  }

  ghost predicate AnchorsOk(w: World) {
    forall e :: e in w.db.epochs && w.db.epochs[e].anchorTxid.Some? ==> AnchorOk(w, e)
  }

  ghost predicate SentOk(w: World) {
    && (forall i, k :: 0 <= i < k < |w.chain.sent| ==> w.chain.sent[i].txid != w.chain.sent[k].txid)
    && (forall i :: 0 <= i < |w.chain.sent| ==> SentRowOk(w.db, w.chain.sent[i]))
  }

  ghost predicate SentRowOk(db: Db, ev: Evidence) {
    var r := RowOf(db.journal, ev.txid);
    r < |db.journal| && db.journal[r].evidence == ev
  }

  ghost predicate LandedOk(w: World) {
    && (forall t :: t in w.chain.landed ==> WasSent(w.chain.sent, t))
    && (forall i :: 0 <= i < |w.chain.sent| && w.chain.sent[i].txid in w.chain.landed ==>
          InEra(w.chain.sent[i], w.chain.landed[w.chain.sent[i].txid]))
  }

  ghost predicate ExpiredOk(w: World) {
    forall i :: 0 <= i < |w.db.journal| && w.db.journal[i].Expired() ==> GoneForGood(w.chain, w.db.journal[i].evidence)
  }

  /** The write-ahead fence: what was sent and has no outcome yet is what the fence names. */
  ghost predicate FenceOk(w: World) {
    && (w.fence.Some? ==> Backed(w.db, w.fence.value))
    && (forall i :: 0 <= i < |w.chain.sent| && Unresolved(w.db, w.chain.sent[i].txid) ==>
          FenceNames(w.fence, w.chain.sent[i].txid))
  }

  ghost predicate Core(w: World) {
    IndexOk(w.db) && AnchorsOk(w) && SentOk(w) && LandedOk(w) && ExpiredOk(w) && FenceOk(w)
  }

  /** What a caller may rely on at its program point. */
  ghost predicate PcOk(w: World, pc: Pc) {
    match pc
    case EnterToAnchor(_, _, seen) => seen.Some? ==> Backed(w.db, seen.value)
    case RestoreForAnchor(_, m) => Backed(w.db, m)
    case EnterToClear(_, m) => Backed(w.db, m)
    case RestoreForClear(_, m) => Backed(w.db, m)
    case DropStaleFence(_, txid) => Terminal(w.db, txid)
    case LowerFence(txid) => Terminal(w.db, txid)
    case PrepareOrResume(job) => Unanchored(w.db, job.epochId)
    case RaiseFence(job, ev, isNew) =>
      && Journaled(w.db, RowOfJob(job, ev)) && Unanchored(w.db, job.epochId)
      && (isNew ==> !WasSent(w.chain.sent, ev.txid))
    case Send(job, ev) =>
      && Journaled(w.db, RowOfJob(job, ev)) && Unanchored(w.db, job.epochId)
      && !WasSent(w.chain.sent, ev.txid) && FenceNames(w.fence, ev.txid)
    case AwaitInclusion(job, ev) =>
      Journaled(w.db, RowOfJob(job, ev)) && Unanchored(w.db, job.epochId) && FenceNames(w.fence, ev.txid)
    case StoreExpiry(job, ev, proof) =>
      Journaled(w.db, RowOfJob(job, ev)) && (0 < proof.mortalEra ==> GoneForGood(w.chain, ev))
    case StoreAnchor(job, ev, block) =>
      && Journaled(w.db, RowOfJob(job, ev)) && Unanchored(w.db, job.epochId)
      && FenceNames(w.fence, ev.txid) && OnChain(w.chain, ev.txid, block)
    case WriteUnrelated => w.fence.None?
    case _ => true
  }

  ghost predicate LockOk(s: State) {
    && (forall p :: p in s.procs && Inside(s.procs[p]) ==> s.lock == Some(p))
    && (s.lock.Some? ==> Inside(PcOf(s, s.lock.value)))
  }

  ghost predicate ProcsOk(s: State) {
    forall p :: p in s.procs ==> PcOk(s.w, s.procs[p])
  }

  ghost predicate Inv(s: State) {
    Core(s.w) && LockOk(s) && ProcsOk(s)
  }

  // -- stability -------------------------------------------------------------

  lemma RowStays(db: Db, later: Db, txid: TxHash)
    requires JournalOk(later) && Extends(db, later) && RowOf(db.journal, txid) < |db.journal|
    ensures RowOf(later.journal, txid) == RowOf(db.journal, txid)
  {
    var r := RowOf(db.journal, txid);
    assert later.journal[r].(outcome := db.journal[r].outcome) == db.journal[r];
    assert later.journal[r].evidence.txid == txid;
  }

  lemma JournaledStays(db: Db, later: Db, row: Submission)
    requires JournalOk(later) && Extends(db, later) && Journaled(db, row)
    ensures Journaled(later, row)
  {
    RowStays(db, later, row.evidence.txid);
  }

  /** The world only moves forward. */
  ghost predicate Advances(w: World, w': World) {
    Core(w') && (w == w' || Extends(w.db, w'.db))
  }

  /** How one step of `p` treats the lock and the other callers. */
  ghost predicate Moves(s: State, s': State, p: Pid) {
    var pc := PcOf(s', p);
    && s'.procs == s.procs[p := pc]
    && s'.lock == (if Inside(pc) then Some(p) else if s.lock == Some(p) then None else s.lock)
  }

  lemma MoveKeepsInv(s: State, s': State, p: Pid)
    requires Inv(s) && Advances(s.w, s'.w) && Moves(s, s', p) && PcOk(s'.w, PcOf(s', p))
    requires s.lock == Some(p) || (s.w == s'.w && (Inside(PcOf(s', p)) ==> s.lock.None?))
    ensures Inv(s')
  {
    forall q | q in s'.procs
      ensures PcOk(s'.w, s'.procs[q])
    {
      if q != p {
        var pc := s.procs[q];
        assert PcOk(s.w, pc);
        if s.w != s'.w {
          assert !Inside(pc);
          match pc
          case EnterToAnchor(_, _, seen) => if seen.Some? { JournaledStays(s.w.db, s'.w.db, RowOfMarker(seen.value)); }
          case EnterToClear(_, m) => JournaledStays(s.w.db, s'.w.db, RowOfMarker(m));
          case _ =>
        }
      }
    }
  }

  // -- what the writes do to the world ----------------------------------------

  /** Any later journal over the same epochs, as long as its expiries are true ones. */
  lemma JournalAdvances(w: World, later: Db)
    requires Core(w) && IndexOk(later) && Extends(w.db, later) && later.epochs == w.db.epochs
    requires ExpiredOk(w.(db := later))
    ensures Advances(w, w.(db := later))
    ensures forall i :: 0 <= i < |w.chain.sent| ==> RowOf(later.journal, w.chain.sent[i].txid) < |w.db.journal|
  {
    var w' := w.(db := later);
    forall i | 0 <= i < |w.chain.sent|
      ensures RowOf(later.journal, w.chain.sent[i].txid) == RowOf(w.db.journal, w.chain.sent[i].txid) < |w.db.journal|
      ensures SentRowOk(later, w.chain.sent[i])
      ensures Unresolved(later, w.chain.sent[i].txid) ==> Unresolved(w.db, w.chain.sent[i].txid)
    {
      assert SentRowOk(w.db, w.chain.sent[i]);
      RowStays(w.db, later, w.chain.sent[i].txid);
    }
    forall e | e in later.epochs && later.epochs[e].anchorTxid.Some?
      ensures AnchorOk(w', e)
    {
      assert AnchorOk(w, e);
      RowStays(w.db, later, later.epochs[e].anchorTxid.value);
    }
    if w.fence.Some? { JournaledStays(w.db, later, RowOfMarker(w.fence.value)); }
  }

  /** A journal that grew by one unresolved row whose hash it did not know. */
  lemma AppendAdvances(w: World, row: Submission)
    requires Core(w) && row.outcome.None? && RowOf(w.db.journal, row.evidence.txid) == |w.db.journal|
    requires var later := w.db.(journal := w.db.journal + [row]); IndexOk(later) && Extends(w.db, later)
    ensures Advances(w, w.(db := w.db.(journal := w.db.journal + [row])))
    ensures !WasSent(w.chain.sent, row.evidence.txid)
  {
    JournalAdvances(w, w.db.(journal := w.db.journal + [row]));
  }

  /** Storing the anchor of an epoch whose hash is fenced, journaled and on chain. */
  lemma AnchorAdvances(w: World, row: Submission, block: int)
    requires Core(w) && Journaled(w.db, row) && Unanchored(w.db, row.epochId)
    requires FenceNames(w.fence, row.evidence.txid) && OnChain(w.chain, row.evidence.txid, block)
    requires WithAnchor(w.db, row.epochId, row.evidence.txid, Some(block)).Success?
    ensures Advances(w, w.(db := WithAnchor(w.db, row.epochId, row.evidence.txid, Some(block)).value))
  {
    AnchorKeepsIndex(w.db, row.epochId, row.evidence.txid, Some(block));
    var later := WithAnchor(w.db, row.epochId, row.evidence.txid, Some(block)).value;
    assert later.journal == w.db.journal;
    forall e | e in later.epochs && later.epochs[e].anchorTxid.Some?
      ensures AnchorOk(w.(db := later), e)
    {
      if e != row.epochId { assert AnchorOk(w, e); }
    }
    forall i | 0 <= i < |w.chain.sent| ensures SentRowOk(later, w.chain.sent[i]) {
      assert SentRowOk(w.db, w.chain.sent[i]);
    }
  }

  /** A terminal outcome only ever discharges the fence, and only a true expiry is stored. */
  lemma OutcomeAdvances(w: World, txid: TxHash, outcome: Outcome)
    requires Core(w) && WithOutcome(w.db, txid, outcome).Success?
    requires outcome.ExpiredAbsent? && 0 < outcome.proof.mortalEra ==>
               GoneForGood(w.chain, w.db.journal[RowOf(w.db.journal, txid)].evidence)
    ensures Advances(w, w.(db := WithOutcome(w.db, txid, outcome).value))
    ensures Terminal(WithOutcome(w.db, txid, outcome).value, txid)
  {
    FinishKeepsIndex(w.db, txid, outcome);
    var later := WithOutcome(w.db, txid, outcome).value;
    RowStays(w.db, later, txid);
    forall i | 0 <= i < |later.journal| && later.journal[i].Expired()
      ensures GoneForGood(w.chain, later.journal[i].evidence)
    {
      if i == RowOf(w.db.journal, txid) && later != w.db {
        assert later.journal[i].outcome == Some(outcome);
      } else {
        assert w.db.journal[i].Expired();
      }
    }
    JournalAdvances(w, later);
  }

  lemma RaisedFenceAdvances(w: World, m: Marker)
    requires Core(w) && Backed(w.db, m) && Unanchored(w.db, m.epochId) && w.fence.None?
    ensures Advances(w, w.(fence := Some(m)))
  {
    var w' := w.(fence := Some(m));
    forall e | e in w'.db.epochs && w'.db.epochs[e].anchorTxid.Some? ensures AnchorOk(w', e) { assert AnchorOk(w, e); }
  }

  lemma LoweredFenceAdvances(w: World)
    requires Core(w) && (w.fence.Some? ==> Terminal(w.db, w.fence.value.txid))
    ensures Advances(w, w.(fence := None))
  {
    var w' := w.(fence := None);
    forall e | e in w'.db.epochs && w'.db.epochs[e].anchorTxid.Some? ensures AnchorOk(w', e) { assert AnchorOk(w, e); }
  }

  lemma StaysSent(sent: seq<Evidence>, ev: Evidence, txid: TxHash)
    requires WasSent(sent, txid)
    ensures WasSent(sent + [ev], txid)
  {
    var i :| 0 <= i < |sent| && sent[i].txid == txid;
    assert (sent + [ev])[i].txid == txid;
  }

  lemma SendAdvances(w: World, row: Submission)
    requires Core(w) && Journaled(w.db, row) && FenceNames(w.fence, row.evidence.txid)
    requires !WasSent(w.chain.sent, row.evidence.txid)
    ensures Advances(w, w.(chain := w.chain.(sent := w.chain.sent + [row.evidence])))
  {
    var w' := w.(chain := w.chain.(sent := w.chain.sent + [row.evidence]));
    forall t | t in w.chain.landed ensures WasSent(w'.chain.sent, t) {
      assert WasSent(w.chain.sent, t);
      StaysSent(w.chain.sent, row.evidence, t);
    }
    forall e | e in w'.db.epochs && w'.db.epochs[e].anchorTxid.Some? ensures AnchorOk(w', e) { assert AnchorOk(w, e); }
  }

  // -- the steps, one lemma each ---------------------------------------------

  ghost predicate Good(s: State, s': State, p: Pid) {
    Advances(s.w, s'.w) && Moves(s, s', p) && PcOk(s'.w, PcOf(s', p))
  }

  /** A marker read from the fence still has its row, so restoring it never inserts one. */
  lemma RestoredIsNoOp(db: Db, m: Marker)
    requires Backed(db, m)
    ensures Restored(db, m) == Success(db)
  {}

  lemma RestoreStep(s: State, p: Pid, job: Job, m: Marker)
    requires Core(s.w) && s.lock == Some(p) && Backed(s.w.db, m)
    ensures Good(s, StepRestore(s, p, job, m), p)
  {
    RestoredIsNoOp(s.w.db, m);
  }

  lemma CheckAnchoredStep(s: State, p: Pid, job: Job, pending: Option<TxHash>)
    requires TombstonesOk(s.w.db) && s.lock == Some(p)
    ensures var s' := StepCheckAnchored(s, p, job, pending);
            s'.w == s.w && Moves(s, s', p) && PcOk(s'.w, PcOf(s', p))
  {}

  /** A successful insert either found the very row already there, or appended it. */
  lemma SubmissionIsOldOrNew(db: Db, row: Submission)
    requires row.outcome.None?
    requires WithSubmission(db, row.epochId, row.netuid, row.logDigest, row.evidence).Success?
    ensures var later := WithSubmission(db, row.epochId, row.netuid, row.logDigest, row.evidence).value;
            Journaled(later, row) &&
            (later == db || (RowOf(db.journal, row.evidence.txid) == |db.journal| && later.journal == db.journal + [row]
                             && later == db.(journal := db.journal + [row])))
  {
    var later := WithSubmission(db, row.epochId, row.netuid, row.logDigest, row.evidence).value;
    if RowOf(db.journal, row.evidence.txid) == |db.journal| {
      assert later.journal[|db.journal|] == row;
    }
  }

  /** With nothing but expired rows, a row that was already there is expired too. */
  lemma ReusedHashIsTerminal(db: Db, row: Submission)
    requires JournalOk(db) && Journaled(db, row)
    requires Newest(db, row.epochId).None? || Newest(db, row.epochId).value.Expired()
    ensures Terminal(db, row.evidence.txid)
  {
    var r, n := RowOf(db.journal, row.evidence.txid), NewestOf(db.journal, row.epochId);
    assert db.journal[r].epochId == row.epochId && r <= n < |db.journal|;
  }

  lemma FreshAdvances(w: World, row: Submission)
    requires Core(w) && row.outcome.None?
    requires Newest(w.db, row.epochId).None? || Newest(w.db, row.epochId).value.Expired()
    requires WithSubmission(w.db, row.epochId, row.netuid, row.logDigest, row.evidence).Success?
    ensures var later := WithSubmission(w.db, row.epochId, row.netuid, row.logDigest, row.evidence).value;
            && Advances(w, w.(db := later)) && later.epochs == w.db.epochs && Journaled(later, row)
            && (Terminal(later, row.evidence.txid) || !WasSent(w.chain.sent, row.evidence.txid))
  {
    SubmissionIsOldOrNew(w.db, row);
    if WithSubmission(w.db, row.epochId, row.netuid, row.logDigest, row.evidence).value == w.db {
      ReusedHashIsTerminal(w.db, row);
    } else {
      SubmitKeepsIndex(w.db, row.epochId, row.netuid, row.logDigest, row.evidence);
      AppendAdvances(w, row);
    }
  }

  lemma FreshMove(s: State, p: Pid, job: Job, ev: Evidence)
    requires s.lock == Some(p) && Unanchored(s.w.db, job.epochId)
    requires Newest(s.w.db, job.epochId).None? || Newest(s.w.db, job.epochId).value.Expired()
    requires var r := WithSubmission(s.w.db, job.epochId, job.netuid, job.logDigest, ev);
             r.Success? ==> r.value.epochs == s.w.db.epochs && Journaled(r.value, RowOfJob(job, ev))
                            && (Terminal(r.value, ev.txid) || !WasSent(s.w.chain.sent, ev.txid))
    ensures var s' := StepPrepare(s, p, job, Prepared(ev));
            var r := WithSubmission(s.w.db, job.epochId, job.netuid, job.logDigest, ev);
            Moves(s, s', p) && PcOk(s'.w, PcOf(s', p)) && (s'.w == s.w || (r.Success? && s'.w == s.w.(db := r.value)))
  {}

  lemma FreshStep(s: State, p: Pid, job: Job, ev: Evidence)
    requires Core(s.w) && s.lock == Some(p) && Unanchored(s.w.db, job.epochId)
    requires Newest(s.w.db, job.epochId).None? || Newest(s.w.db, job.epochId).value.Expired()
    ensures Good(s, StepPrepare(s, p, job, Prepared(ev)), p)
  {
    if WithSubmission(s.w.db, job.epochId, job.netuid, job.logDigest, ev).Success? {
      FreshAdvances(s.w, RowOfJob(job, ev));
    }
    FreshMove(s, p, job, ev);
  }

  lemma ResumeStep(s: State, p: Pid, job: Job, answer: Answer)
    requires Core(s.w) && s.lock == Some(p) && Unanchored(s.w.db, job.epochId)
    requires Newest(s.w.db, job.epochId).Some? && !Newest(s.w.db, job.epochId).value.Expired()
    ensures Good(s, StepPrepare(s, p, job, answer), p)
  {
    var n := NewestOf(s.w.db.journal, job.epochId);
    assert RowOf(s.w.db.journal, s.w.db.journal[n].evidence.txid) == n;
  }

  lemma RaiseFenceStep(s: State, p: Pid, job: Job, ev: Evidence, isNew: bool)
    requires Core(s.w) && s.lock == Some(p) && PcOk(s.w, RaiseFence(job, ev, isNew))
    ensures Good(s, StepRaiseFence(s, p, job, ev, isNew), p)
  {
    if s.w.fence.None? {
      RaisedFenceAdvances(s.w, Marker(ev.txid, job.epochId, job.netuid, job.logDigest, ev));
    }
    RaiseFenceShape(s, p, job, ev, isNew);
  }

  lemma RaiseFenceShape(s: State, p: Pid, job: Job, ev: Evidence, isNew: bool)
    requires s.lock == Some(p) && PcOk(s.w, RaiseFence(job, ev, isNew))
    ensures var s' := StepRaiseFence(s, p, job, ev, isNew);
            && Moves(s, s', p) && PcOk(s'.w, PcOf(s', p))
            && s'.w == if s.w.fence.Some? then s.w
                       else s.w.(fence := Some(Marker(ev.txid, job.epochId, job.netuid, job.logDigest, ev)))
  {}

  lemma AwaitStep(s: State, p: Pid, job: Job, ev: Evidence, answer: Answer)
    requires s.lock == Some(p) && PcOk(s.w, AwaitInclusion(job, ev))
    requires ev.txid in s.w.chain.landed ==> InEra(ev, s.w.chain.landed[ev.txid])
    ensures var s' := StepAwait(s, p, job, ev, answer);
            s'.w == s.w && Moves(s, s', p) && PcOk(s'.w, PcOf(s', p))
  {}

  /** What landed did so inside the era that its journaled evidence declares. */
  lemma LandedInEra(w: World, row: Submission)
    requires SentOk(w) && LandedOk(w) && Journaled(w.db, row) && row.evidence.txid in w.chain.landed
    ensures InEra(row.evidence, w.chain.landed[row.evidence.txid])
  {
    assert WasSent(w.chain.sent, row.evidence.txid);
    var i :| 0 <= i < |w.chain.sent| && w.chain.sent[i].txid == row.evidence.txid;
    assert SentRowOk(w.db, w.chain.sent[i]);
  }

  lemma StoreAnchorMove(s: State, p: Pid, job: Job, ev: Evidence, block: int)
    requires s.lock == Some(p)
    ensures var s' := StepStoreAnchor(s, p, job, ev, block);
            var r := WithAnchor(s.w.db, job.epochId, ev.txid, Some(block));
            Moves(s, s', p) && PcOk(s'.w, PcOf(s', p)) && s'.w == if r.Success? then s.w.(db := r.value) else s.w
  {}

  lemma StoreAnchorStep(s: State, p: Pid, job: Job, ev: Evidence, block: int)
    requires Core(s.w) && s.lock == Some(p) && PcOk(s.w, StoreAnchor(job, ev, block))
    ensures Good(s, StepStoreAnchor(s, p, job, ev, block), p)
  {
    StoreAnchorMove(s, p, job, ev, block);
    if WithAnchor(s.w.db, job.epochId, ev.txid, Some(block)).Success? {
      AnchorAdvances(s.w, RowOfJob(job, ev), block);
    }
  }

  lemma OutcomeStep(s: State, p: Pid, txid: TxHash, outcome: Outcome)
    requires Core(s.w) && s.lock == Some(p)
    requires outcome.ExpiredAbsent? && 0 < outcome.proof.mortalEra && RowOf(s.w.db.journal, txid) < |s.w.db.journal| ==>
               GoneForGood(s.w.chain, s.w.db.journal[RowOf(s.w.db.journal, txid)].evidence)
    ensures Good(s, StepOutcome(s, p, txid, outcome), p)
  {
    if WithOutcome(s.w.db, txid, outcome).Success? {
      OutcomeAdvances(s.w, txid, outcome);
    }
    OutcomeShape(s, p, txid, outcome);
  }

  lemma OutcomeShape(s: State, p: Pid, txid: TxHash, outcome: Outcome)
    requires s.lock == Some(p)
    requires var r := WithOutcome(s.w.db, txid, outcome); r.Success? ==> Terminal(r.value, txid)
    ensures var s' := StepOutcome(s, p, txid, outcome);
            var r := WithOutcome(s.w.db, txid, outcome);
            Moves(s, s', p) && PcOk(s'.w, PcOf(s', p)) && s'.w == if r.Success? then s.w.(db := r.value) else s.w
  {}

  lemma LowerFenceStep(s: State, p: Pid, txid: TxHash, next: Pc)
    requires Core(s.w) && s.lock == Some(p) && Terminal(s.w.db, txid) && (next.CheckAnchored? || next.Idle?)
    ensures Good(s, StepLowerFence(s, p, txid, next), p)
  {
    if WithoutMark(s.w.fence, txid).Success? {
      LoweredFenceAdvances(s.w);
    }
  }

  lemma FindAcknowledgedStep(s: State, p: Pid, txid: TxHash)
    requires FenceOk(s.w) && s.lock == Some(p)
    ensures var s' := StepFindAcknowledged(s, p, txid);
            s'.w == s.w && Moves(s, s', p) && PcOk(s'.w, PcOf(s', p))
  {
    if s.w.fence.Some? { RestoredIsNoOp(s.w.db, s.w.fence.value); }
  }

  lemma RestoreForClearStep(s: State, p: Pid, expected: Option<int>, m: Marker)
    requires Core(s.w) && s.lock == Some(p) && Backed(s.w.db, m)
    ensures Good(s, StepRestoreForClear(s, p, expected, m), p)
  {
    RestoredIsNoOp(s.w.db, m);
  }

  lemma DecideClearStep(s: State, p: Pid, txid: TxHash)
    requires s.lock == Some(p)
    ensures var s' := StepDecideClear(s, p, txid);
            s'.w == s.w && Moves(s, s', p) && PcOk(s'.w, PcOf(s', p))
  {}

  /** Outside the lane a caller reads, or goes in; it writes nothing. */
  ghost predicate OnlyMoves(s: State, s': State, p: Pid) {
    && s'.w == s.w && (s' == s || Moves(s, s', p)) && PcOk(s'.w, PcOf(s', p))
    && (Inside(PcOf(s', p)) ==> s.lock.None?)
  }

  lemma PeekStep(s: State, p: Pid, answer: Answer)
    requires FenceOk(s.w) && s.lock != Some(p) && p in s.procs
    requires PcOf(s, p).PeekJournal? || PcOf(s, p).PeekFence? || PcOf(s, p).PeekToClear? || PcOf(s, p).Idle?
    ensures OnlyMoves(s, Step(s, p, answer), p)
  {}

  lemma OutsideStep(s: State, p: Pid, answer: Answer)
    requires FenceOk(s.w) && !Inside(PcOf(s, p)) && s.lock != Some(p) && PcOk(s.w, PcOf(s, p)) && p in s.procs
    ensures OnlyMoves(s, Step(s, p, answer), p)
  {
    var pc := PcOf(s, p);
    if pc.EnterToAnchor? && pc.seen.Some? {
      EnterStep(s, p, Some(pc.seen.value.txid), RestoreForAnchor(pc.job, pc.seen.value));
    } else if pc.EnterToAnchor? {
      EnterStep(s, p, pc.pending, CheckAnchored(pc.job, pc.pending));
    } else if pc.EnterToClear? {
      EnterStep(s, p, Some(pc.marker.txid), RestoreForClear(pc.expected, pc.marker));
    } else if pc.EnterToAcknowledge? {
      EnterStep(s, p, Some(pc.txid), FindAcknowledged(pc.txid));
    } else if pc.EnterUnrelated? {
      EnterStep(s, p, None, WriteUnrelated);
    } else {
      PeekStep(s, p, answer);
    }
  }

  /** Going in needs a free lock and a fence that admits; a busy lane leaves the caller waiting. */
  lemma EnterStep(s: State, p: Pid, txid: Option<TxHash>, pc: Pc)
    requires !Inside(PcOf(s, p)) && s.lock != Some(p) && PcOk(s.w, PcOf(s, p)) && p in s.procs && Inside(pc)
    requires Admits(s.w.fence, txid) ==> PcOk(s.w, pc)
    ensures OnlyMoves(s, Enter(s, p, txid, pc), p)
  {}

  /** The callers at the end of a call, where the durable writes are. */
  predicate Writes(pc: Pc) {
    pc.DropStaleFence? || pc.StoreExpiry? || pc.StoreAnchor? || pc.StoreConfirmed? || pc.LowerFence? ||
      pc.StoreAcknowledged?
  }

  lemma WritingStep(s: State, p: Pid, answer: Answer)
    requires Core(s.w) && s.lock == Some(p) && PcOk(s.w, PcOf(s, p)) && Writes(PcOf(s, p))
    ensures Good(s, Step(s, p, answer), p)
  {
    match PcOf(s, p)
    case DropStaleFence(job, txid) => LowerFenceStep(s, p, txid, CheckAnchored(job, Some(txid)));
    case StoreExpiry(job, ev, proof) => OutcomeStep(s, p, ev.txid, ExpiredAbsent(proof));
    case StoreAnchor(job, ev, block) => StoreAnchorStep(s, p, job, ev, block);
    case StoreConfirmed(txid, block) => OutcomeStep(s, p, txid, Confirmed(block));
    case LowerFence(txid) => LowerFenceStep(s, p, txid, Idle);
    case StoreAcknowledged(txid) => OutcomeStep(s, p, txid, OperatorAcknowledged(txid));
  }

  lemma PrepareStep(s: State, p: Pid, job: Job, answer: Answer)
    requires Core(s.w) && s.lock == Some(p) && PcOk(s.w, PcOf(s, p)) && PcOf(s, p) == PrepareOrResume(job)
    ensures Good(s, Step(s, p, answer), p)
  {
    if Newest(s.w.db, job.epochId).Some? && !Newest(s.w.db, job.epochId).value.Expired() {
      ResumeStep(s, p, job, answer);
    } else if answer.Prepared? {
      FreshStep(s, p, job, answer.evidence);
    }
  }

  lemma SendStep(s: State, p: Pid, job: Job, ev: Evidence, answer: Answer)
    requires Core(s.w) && s.lock == Some(p) && PcOk(s.w, PcOf(s, p)) && PcOf(s, p) == Send(job, ev)
    ensures Good(s, Step(s, p, answer), p)
  {
    SendAdvances(s.w, RowOfJob(job, ev));
  }

  lemma ConfirmStep(s: State, p: Pid, job: Job, ev: Evidence, answer: Answer)
    requires Core(s.w) && s.lock == Some(p) && PcOk(s.w, PcOf(s, p)) && PcOf(s, p) == AwaitInclusion(job, ev)
    ensures Good(s, Step(s, p, answer), p)
  {
    if ev.txid in s.w.chain.landed { LandedInEra(s.w, RowOfJob(job, ev)); }
    AwaitStep(s, p, job, ev, answer);
  }

  lemma ReadingStep(s: State, p: Pid, answer: Answer)
    requires Core(s.w) && s.lock == Some(p) && PcOk(s.w, PcOf(s, p)) && Restores(PcOf(s, p))
    ensures Good(s, Step(s, p, answer), p)
  {
    match PcOf(s, p)
    case RestoreForAnchor(job, m) => RestoreStep(s, p, job, m);
    case CheckAnchored(job, pending) => CheckAnchoredStep(s, p, job, pending);
    case RestoreForClear(expected, m) => RestoreForClearStep(s, p, expected, m);
    case DecideClear(txid) => DecideClearStep(s, p, txid);
    case FindAcknowledged(txid) => FindAcknowledgedStep(s, p, txid);
  }

  predicate Restores(pc: Pc) {
    pc.RestoreForAnchor? || pc.CheckAnchored? || pc.RestoreForClear? || pc.DecideClear? || pc.FindAcknowledged?
  }

  lemma UnrelatedStep(s: State, p: Pid, answer: Answer)
    requires Core(s.w) && s.lock == Some(p) && PcOf(s, p).WriteUnrelated?
    ensures Good(s, Step(s, p, answer), p)
  {}

  lemma RaisingStep(s: State, p: Pid, job: Job, ev: Evidence, isNew: bool, answer: Answer)
    requires Core(s.w) && s.lock == Some(p) && PcOk(s.w, PcOf(s, p)) && PcOf(s, p) == RaiseFence(job, ev, isNew)
    ensures Good(s, Step(s, p, answer), p)
  {
    RaiseFenceStep(s, p, job, ev, isNew);
  }

  lemma InsideStep(s: State, p: Pid, answer: Answer)
    requires Core(s.w) && s.lock == Some(p) && Inside(PcOf(s, p)) && PcOk(s.w, PcOf(s, p))
    ensures Good(s, Step(s, p, answer), p)
  {
    var pc := PcOf(s, p);
    if Restores(pc) {
      ReadingStep(s, p, answer);
    } else if Writes(pc) {
      WritingStep(s, p, answer);
    } else if pc.PrepareOrResume? {
      PrepareStep(s, p, pc.job, answer);
    } else if pc.RaiseFence? {
      RaisingStep(s, p, pc.job, pc.evidence, pc.isNew, answer);
    } else if pc.Send? {
      SendStep(s, p, pc.job, pc.evidence, answer);
    } else if pc.AwaitInclusion? {
      ConfirmStep(s, p, pc.job, pc.evidence, answer);
    } else {
      UnrelatedStep(s, p, answer);
    }
  }

  // -- the world moving on its own --------------------------------------------

  /** Epochs being finalized and tombstoned, transactions landing, the head advancing. */
  ghost predicate Drifts(w: World, w': World) {
    && w'.fence == w.fence && w'.db.journal == w.db.journal && w'.chain.sent == w.chain.sent
    && (forall e :: Unanchored(w.db, e) ==> Unanchored(w'.db, e))
    && (forall t :: t in w.chain.landed ==> t in w'.chain.landed && w'.chain.landed[t] == w.chain.landed[t])
    && w.chain.head <= w'.chain.head
    && (forall i :: 0 <= i < |w.db.journal| && GoneForGood(w.chain, w.db.journal[i].evidence) ==>
          GoneForGood(w'.chain, w.db.journal[i].evidence))
  }

  lemma DriftKeepsPc(w: World, w': World, pc: Pc)
    requires Drifts(w, w') && PcOk(w, pc)
    ensures PcOk(w', pc)
  {}

  lemma DriftKeepsInv(s: State, w': World)
    requires Inv(s) && Drifts(s.w, w') && Core(w')
    ensures Inv(s.(w := w'))
  {
    forall p | p in s.procs ensures PcOk(w', s.procs[p]) { DriftKeepsPc(s.w, w', s.procs[p]); }
  }

  lemma IndexDrifts(w: World, e: int, pointer: Pointer)
    requires Core(w) && WithPointer(w.db, e, pointer).Success?
    ensures var w' := w.(db := WithPointer(w.db, e, pointer).value); Drifts(w, w') && Core(w')
  {
    FinalizeKeepsIndex(w.db, e, pointer);
    var w' := w.(db := WithPointer(w.db, e, pointer).value);
    forall x | x in w'.db.epochs && w'.db.epochs[x].anchorTxid.Some? ensures AnchorOk(w', x) { assert AnchorOk(w, x); }
    forall i | 0 <= i < |w.chain.sent| ensures SentRowOk(w'.db, w.chain.sent[i]) {
      assert SentRowOk(w.db, w.chain.sent[i]);
    }
  }

  lemma TombstoneDrifts(w: World, e: int)
    requires Core(w) && WithTombstone(w.db, e).Success?
    ensures var w' := w.(db := WithTombstone(w.db, e).value); Drifts(w, w') && Core(w')
  {
    TombstoneKeepsIndex(w.db, e);
    var w' := w.(db := WithTombstone(w.db, e).value);
    forall x | x in w'.db.epochs && w'.db.epochs[x].anchorTxid.Some? ensures AnchorOk(w', x) { assert AnchorOk(w, x); }
    forall i | 0 <= i < |w.chain.sent| ensures SentRowOk(w'.db, w.chain.sent[i]) {
      assert SentRowOk(w.db, w.chain.sent[i]);
    }
  }

  function Landed(w: World, txid: TxHash, block: int): World {
    w.(chain := w.chain.(landed := w.chain.landed[txid := block]))
  }

  /** A sent transaction that may still land is not one whose era is over. */
  lemma LandingIsNotGone(w: World, txid: TxHash, block: int, i: nat)
    requires SentOk(w) && WasSent(w.chain.sent, txid) && w.chain.head < block && i < |w.db.journal|
    requires JournalOk(w.db) && w.db.journal[i].evidence.txid == txid
    requires forall k :: 0 <= k < |w.chain.sent| && w.chain.sent[k].txid == txid ==> InEra(w.chain.sent[k], block)
    ensures !GoneForGood(w.chain, w.db.journal[i].evidence)
  {
    var k :| 0 <= k < |w.chain.sent| && w.chain.sent[k].txid == txid;
    assert SentRowOk(w.db, w.chain.sent[k]);
    assert RowOf(w.db.journal, txid) == i;
  }

  /** What cannot land any more still cannot. */
  lemma LandingKeepsGone(w: World, txid: TxHash, block: int)
    requires SentOk(w) && WasSent(w.chain.sent, txid) && w.chain.head < block && JournalOk(w.db)
    requires forall k :: 0 <= k < |w.chain.sent| && w.chain.sent[k].txid == txid ==> InEra(w.chain.sent[k], block)
    ensures forall i :: 0 <= i < |w.db.journal| && GoneForGood(w.chain, w.db.journal[i].evidence) ==>
              GoneForGood(Landed(w, txid, block).chain, w.db.journal[i].evidence)
  {
    forall i | 0 <= i < |w.db.journal| && w.db.journal[i].evidence.txid == txid
      ensures !GoneForGood(w.chain, w.db.journal[i].evidence)
    {
      LandingIsNotGone(w, txid, block, i);
    }
  }

  lemma LandingKeepsLanded(w: World, txid: TxHash, block: int)
    requires LandedOk(w) && SentOk(w) && WasSent(w.chain.sent, txid)
    requires forall k :: 0 <= k < |w.chain.sent| && w.chain.sent[k].txid == txid ==> InEra(w.chain.sent[k], block)
    ensures LandedOk(Landed(w, txid, block)) && SentOk(Landed(w, txid, block))
  {
    forall i | 0 <= i < |w.chain.sent| ensures SentRowOk(w.db, w.chain.sent[i]) {}
  }

  lemma LandingKeepsAnchors(w: World, txid: TxHash, block: int)
    requires AnchorsOk(w) && txid !in w.chain.landed
    ensures AnchorsOk(Landed(w, txid, block))
  {
    var w' := Landed(w, txid, block);
    forall x | x in w'.db.epochs && w'.db.epochs[x].anchorTxid.Some? ensures AnchorOk(w', x) { assert AnchorOk(w, x); }
  }

  /** A transaction lands above the finalized head and inside its era, so an expired one cannot. */
  lemma LandDrifts(w: World, txid: TxHash, block: int)
    requires Core(w) && WasSent(w.chain.sent, txid) && txid !in w.chain.landed && w.chain.head < block
    requires forall i :: 0 <= i < |w.chain.sent| && w.chain.sent[i].txid == txid ==> InEra(w.chain.sent[i], block)
    ensures var w' := w.(chain := w.chain.(landed := w.chain.landed[txid := block])); Drifts(w, w') && Core(w')
  {
    LandingKeepsGone(w, txid, block);
    LandingKeepsLanded(w, txid, block);
    LandingKeepsAnchors(w, txid, block);
  }

  lemma HeadDrifts(w: World, head: int)
    requires Core(w) && w.chain.head <= head
    ensures var w' := w.(chain := w.chain.(head := head)); Drifts(w, w') && Core(w')
  {
    var w' := w.(chain := w.chain.(head := head));
    forall x | x in w'.db.epochs && w'.db.epochs[x].anchorTxid.Some? ensures AnchorOk(w', x) { assert AnchorOk(w, x); }
  }

  // -- every interleaving ------------------------------------------------------

  lemma CallerStepKeepsInv(s: State, p: Pid, answer: Answer)
    requires Inv(s)
    ensures Inv(Step(s, p, answer))
  {
    var s' := Step(s, p, answer);
    if p in s.procs {
      assert PcOk(s.w, s.procs[p]);
      if Inside(PcOf(s, p)) {
        InsideStep(s, p, answer);
        MoveKeepsInv(s, s', p);
      } else {
        OutsideStep(s, p, answer);
        if s' != s { MoveKeepsInv(s, s', p); }
      }
    }
  }

  lemma ActionKeepsInv(s: State, a: Action)
    requires Inv(s)
    ensures Inv(Apply(s, a))
  {
    match a
    case Start(p, pc) =>
      if PcOf(s, p).Idle? && Startable(pc) { MoveKeepsInv(s, Goto(s, p, pc), p); }
    case Act(p, answer) => CallerStepKeepsInv(s, p, answer);
    case Abort(p) => MoveKeepsInv(s, Leave(s, p), p);
    case Index(e, pointer) =>
      if WithPointer(s.w.db, e, pointer).Success? {
        IndexDrifts(s.w, e, pointer);
        DriftKeepsInv(s, s.w.(db := WithPointer(s.w.db, e, pointer).value));
      }
    case Tombstone(e) =>
      if WithTombstone(s.w.db, e).Success? {
        TombstoneDrifts(s.w, e);
        DriftKeepsInv(s, s.w.(db := WithTombstone(s.w.db, e).value));
      }
    case Land(txid, block) =>
      if Apply(s, a) != s {
        LandDrifts(s.w, txid, block);
        DriftKeepsInv(s, s.w.(chain := s.w.chain.(landed := s.w.chain.landed[txid := block])));
      }
    case Finalize(head) =>
      if s.w.chain.head <= head {
        HeadDrifts(s.w, head);
        DriftKeepsInv(s, s.w.(chain := s.w.chain.(head := head)));
      }
  }

  lemma {:induction false} RunKeepsInv(s: State, actions: seq<Action>)
    requires Inv(s)
    ensures Inv(Run(s, actions))
    decreases |actions|
  {
    if actions != [] {
      ActionKeepsInv(s, actions[0]);
      RunKeepsInv(Apply(s, actions[0]), actions[1..]);
    }
  }

  // -- what follows ------------------------------------------------------------

  ghost predicate Reachable(s: State) {
    exists actions :: s == Run(INITIAL, actions)
  }

  lemma ReachableInv(s: State)
    requires Reachable(s)
    ensures Inv(s)
  {
    var actions :| s == Run(INITIAL, actions);
    RunKeepsInv(INITIAL, actions);
  }

  /** A hash that was handed to the network has its journal row with the very same signed bytes,
      was handed over once, and stays named by the fence until its outcome is durable. So at most
      one dispatched hash of the lane is unresolved. */
  lemma WriteAheadFence(s: State, i: nat, k: nat)
    requires Reachable(s) && i < |s.w.chain.sent| && k < |s.w.chain.sent|
    ensures ByHash(s.w.db, s.w.chain.sent[i].txid).Some?
    ensures ByHash(s.w.db, s.w.chain.sent[i].txid).value.evidence == s.w.chain.sent[i]
    ensures i != k ==> s.w.chain.sent[i].txid != s.w.chain.sent[k].txid
    ensures Unresolved(s.w.db, s.w.chain.sent[i].txid) ==> FenceNames(s.w.fence, s.w.chain.sent[i].txid)
    ensures Unresolved(s.w.db, s.w.chain.sent[i].txid) && Unresolved(s.w.db, s.w.chain.sent[k].txid) ==> i == k
  {
    ReachableInv(s);
    assert SentRowOk(s.w.db, s.w.chain.sent[i]) && SentRowOk(s.w.db, s.w.chain.sent[k]);
  }

  /** Before the dispatch step runs, journal row and fence are both durable and the hash is new. */
  lemma EvidencePrecedesDispatch(s: State, p: Pid)
    requires Reachable(s) && PcOf(s, p).Send?
    ensures var Send(job, ev) := PcOf(s, p);
            && ByHash(s.w.db, ev.txid).Some? && ByHash(s.w.db, ev.txid).value.evidence == ev
            && ByHash(s.w.db, ev.txid).value.epochId == job.epochId
            && FenceNames(s.w.fence, ev.txid) && !WasSent(s.w.chain.sent, ev.txid) && s.lock == Some(p)
  {
    ReachableInv(s);
    assert PcOk(s.w, s.procs[p]);
  }

  /** The hash a caller that has just entered the lane came for. */
  function CameFor(pc: Pc): Option<TxHash> {
    match pc
    case RestoreForAnchor(_, m) => Some(m.txid)
    case CheckAnchored(_, pending) => pending
    case RestoreForClear(_, m) => Some(m.txid)
    case FindAcknowledged(txid) => Some(txid)
    case _ => None
  }

  /** While a dispatched hash is unresolved no other writer is inside, and whoever enters the lane
      came for that hash. */
  lemma NoOtherWriterMeanwhile(s: State, i: nat, a: Action, p: Pid)
    requires Reachable(s) && i < |s.w.chain.sent| && Unresolved(s.w.db, s.w.chain.sent[i].txid)
    ensures !PcOf(s, p).WriteUnrelated?
    ensures s.lock.None? && Apply(s, a).lock == Some(p) ==>
              CameFor(PcOf(Apply(s, a), p)) == Some(s.w.chain.sent[i].txid)
  {
    WriteAheadFence(s, i, i);
    ReachableInv(s);
    if p in s.procs { assert PcOk(s.w, s.procs[p]); }
    if s.lock.None? && Apply(s, a).lock == Some(p) {
      EntersForTheFence(s, a, p);
    }
  }

  /** Whoever takes a free lane while a fence is up came for the fenced hash. */
  lemma EntersForTheFence(s: State, a: Action, p: Pid)
    requires LockOk(s) && s.lock.None? && Apply(s, a).lock == Some(p) && s.w.fence.Some?
    ensures CameFor(PcOf(Apply(s, a), p)) == Some(s.w.fence.value.txid)
  {
    assert a.Act? && a.p == p;
  }

  /** All rows of an epoch but the newest are proven expired, and none of those can land any more;
      so however often submissions expired and were prepared anew, one hash at most is on chain. */
  lemma AtMostOneInclusion(s: State, i: nat, k: nat)
    requires Reachable(s) && i < k < |s.w.db.journal| && s.w.db.journal[i].epochId == s.w.db.journal[k].epochId
    ensures s.w.db.journal[i].Expired()
    ensures s.w.db.journal[i].evidence.txid !in s.w.chain.landed
  {
    ReachableInv(s);
  }

  /** Of all hashes that ever landed, at most one is for any one epoch, and each has its journal row. */
  lemma OneHashPerEpochOnChain(s: State, a: TxHash, b: TxHash)
    requires Reachable(s) && a in s.w.chain.landed && b in s.w.chain.landed
    ensures ByHash(s.w.db, a).Some? && ByHash(s.w.db, b).Some?
    ensures ByHash(s.w.db, a).value.epochId == ByHash(s.w.db, b).value.epochId ==> a == b
  {
    ReachableInv(s);
    LandedHasRow(s.w, a);
    LandedHasRow(s.w, b);
    var i, k := RowOf(s.w.db.journal, a), RowOf(s.w.db.journal, b);
    if s.w.db.journal[i].epochId == s.w.db.journal[k].epochId {
      if i < k { AtMostOneInclusion(s, i, k); }
      if k < i { AtMostOneInclusion(s, k, i); }
    }
  }

  lemma LandedHasRow(w: World, txid: TxHash)
    requires SentOk(w) && LandedOk(w) && txid in w.chain.landed
    ensures RowOf(w.db.journal, txid) < |w.db.journal|
  {
    assert WasSent(w.chain.sent, txid);
    var i :| 0 <= i < |w.chain.sent| && w.chain.sent[i].txid == txid;
    assert SentRowOk(w.db, w.chain.sent[i]);
  }

  /** What an expired row says stays true for ever. */
  lemma ExpiredNeverLands(s: State, actions: seq<Action>, i: nat)
    requires Reachable(s) && i < |s.w.db.journal| && s.w.db.journal[i].Expired()
    ensures s.w.db.journal[i].evidence.txid !in Run(s, actions).w.chain.landed
  {
    ReachableInv(s);
    RunKeepsInv(s, actions);
    JournalSurvives(s, actions);
    assert Run(s, actions).w.db.journal[i] == s.w.db.journal[i];
  }

  lemma {:induction false} JournalSurvives(s: State, actions: seq<Action>)
    requires Inv(s)
    ensures Extends(s.w.db, Run(s, actions).w.db)
    decreases |actions|
  {
    if actions != [] {
      var next := Apply(s, actions[0]);
      ActionExtends(s, actions[0]);
      ActionKeepsInv(s, actions[0]);
      JournalSurvives(next, actions[1..]);
      ExtendsTransitive(s.w.db, next.w.db, Run(next, actions[1..]).w.db);
    }
  }

  lemma ExtendsItself(db: Db)
    ensures Extends(db, db)
  {}

  lemma StepExtends(s: State, p: Pid, answer: Answer)
    requires Inv(s) && p in s.procs
    ensures Extends(s.w.db, Step(s, p, answer).w.db)
  {
    assert PcOk(s.w, s.procs[p]);
    ExtendsItself(s.w.db);
    if Inside(s.procs[p]) { InsideStep(s, p, answer); } else { OutsideStep(s, p, answer); }
  }

  lemma ActionExtends(s: State, a: Action)
    requires Inv(s)
    ensures Extends(s.w.db, Apply(s, a).w.db)
  {
    ExtendsItself(s.w.db);
    match a
    case Act(p, answer) => if p in s.procs { StepExtends(s, p, answer); }
    case Index(e, pointer) =>
      if WithPointer(s.w.db, e, pointer).Success? { FinalizeKeepsIndex(s.w.db, e, pointer); }
    case Tombstone(e) =>
      if WithTombstone(s.w.db, e).Success? { TombstoneKeepsIndex(s.w.db, e); }
    case _ =>
  }

  /** A confirmed row is the anchor of its epoch, digest and block included, and that block is
      finalized on chain. */
  lemma ConfirmedIsOnChain(s: State, i: nat)
    requires Reachable(s) && i < |s.w.db.journal|
    requires s.w.db.journal[i].outcome.Some? && s.w.db.journal[i].outcome.value.Confirmed?
    ensures var row := s.w.db.journal[i];
            var record := Get(s.w.db, row.epochId);
            && record.Some? && record.value.anchorTxid == Some(row.evidence.txid)
            && record.value.anchorBlock == row.outcome.value.block && row.outcome.value.block.Some?
            && record.value.pointer.logDigest == row.logDigest
            && OnChain(s.w.chain, row.evidence.txid, row.outcome.value.block.value)
  {
    ReachableInv(s);
    var row := s.w.db.journal[i];
    assert RowOk(s.w.db, row);
    assert AnchorOk(s.w, row.epochId);
  }
}
