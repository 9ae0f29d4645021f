/** The anchor submission protocol (vidaio/authority/anchoring.py) as a state machine. Every
    durable write, every read that other callers can overtake and every call to the chain is a
    step of its own, so an interleaving of callers is a sequence of actions. `Abort` is an
    exception, a cancellation or a crash at any point: the caller forgets where it was and the
    operating system takes its lock back, while tables, fence and chain stay. */
module AnchorProtocol {
  import opened Wrappers
  import opened EpochIndex
  import opened WriterLane

  type Pid = nat

  /** The arguments of one `anchor_epoch` call. */
  datatype Job = Job(epochId: int, closeBlock: int, logDigest: Digest, netuid: int, confirmationDepth: int)

  /** What the network got, where it landed, and how far it is finalized. */
  datatype Chain = Chain(sent: seq<Evidence>, landed: map<TxHash, int>, head: int)

  /** Where a caller is. The names say what it does next. */
  datatype Pc =
    | Idle
    // anchor_epoch, before the lane
    | PeekJournal(job: Job)
    | PeekFence(job: Job, pending: Option<TxHash>)
    | EnterToAnchor(job: Job, pending: Option<TxHash>, seen: Option<Marker>)
    // anchor_epoch, inside the lane
    | RestoreForAnchor(job: Job, marker: Marker)
    | DropStaleFence(job: Job, txid: TxHash)
    | CheckAnchored(job: Job, pending: Option<TxHash>)
    | PrepareOrResume(job: Job)
    | RaiseFence(job: Job, evidence: Evidence, isNew: bool)
    | Send(job: Job, evidence: Evidence)
    | AwaitInclusion(job: Job, evidence: Evidence)
    | StoreExpiry(job: Job, evidence: Evidence, proof: AbsenceProof)
    | StoreAnchor(job: Job, evidence: Evidence, block: int)
    // shared tail: terminal outcome, then the fence
    | StoreConfirmed(txid: TxHash, anchorBlock: Option<int>)
    | LowerFence(txid: TxHash)
    // clear_confirmed_anchor_writer
    | PeekToClear(expected: Option<int>)
    | EnterToClear(expected: Option<int>, marker: Marker)
    | RestoreForClear(expected: Option<int>, marker: Marker)
    | DecideClear(txid: TxHash)
    // acknowledge_anchor_submission
    | EnterToAcknowledge(txid: TxHash)
    | FindAcknowledged(txid: TxHash)
    | StoreAcknowledged(txid: TxHash)
    // any other commitment writer of the lane
    | EnterUnrelated
    | WriteUnrelated

  /** What the chain or the wallet answers when the step asks it. */
  datatype Answer =
    | Nothing
    | Prepared(evidence: Evidence)
    | Included(block: int)
    | Absent

  /** What survives any crash of a caller: the tables, the fence file and the chain. */
  datatype World = World(db: Db, fence: Option<Marker>, chain: Chain)

  datatype State = State(w: World, lock: Option<Pid>, procs: map<Pid, Pc>)

  const INITIAL := State(World(EMPTY_DB, None, Chain([], map[], 0)), None, map[])

  datatype Action =
    | Start(p: Pid, pc: Pc)
    | Act(p: Pid, answer: Answer)
    | Abort(p: Pid)
    | Index(epochId: int, pointer: Pointer)
    | Tombstone(epochId: int)
    | Land(txid: TxHash, block: int)
    | Finalize(head: int)

  predicate Inside(pc: Pc) {
    match pc
    case Idle | PeekJournal(_) | PeekFence(_, _) | EnterToAnchor(_, _, _) | PeekToClear(_) | EnterToClear(_, _)
         | EnterToAcknowledge(_) | EnterUnrelated => false
    case _ => true
  }

  predicate Startable(pc: Pc) {
    pc.PeekJournal? || pc.PeekToClear? || pc.EnterToAcknowledge? || pc.EnterUnrelated?
  }

  function PcOf(s: State, p: Pid): Pc {
    if p in s.procs then s.procs[p] else Idle
  }

  function PutDb(s: State, db: Db): State { s.(w := s.w.(db := db)) }

  function PutFence(s: State, fence: Option<Marker>): State { s.(w := s.w.(fence := fence)) }

  function PutChain(s: State, chain: Chain): State { s.(w := s.w.(chain := chain)) }

  /** Stay in the lane (or stay out of it) and go on at `pc`. */
  function Goto(s: State, p: Pid, pc: Pc): State {
    s.(procs := s.procs[p := pc])
  }

  /** Return or raise: forget everything and give the lock back. */
  function Leave(s: State, p: Pid): State {
    s.(procs := s.procs[p := Idle], lock := if s.lock == Some(p) then None else s.lock)
  }

  /** `anchor_writer_lock`: poll while held, refuse at a foreign fence, else go in. */
  function Enter(s: State, p: Pid, txid: Option<TxHash>, pc: Pc): State {
    if s.lock.Some? then s
    else if !Admits(s.w.fence, txid) then Leave(s, p)
    else Goto(s, p, pc).(lock := Some(p))
  }

  /** The journal row the marker names, inserted from the marker when the journal lacks it. */
  function Restored(db: Db, m: Marker): Result<Db, AnchorError> {
    var row := ByHash(db, m.txid);
    if row.Some? then
      if row.value.(outcome := None) == Submission(m.epochId, m.netuid, m.logDigest, m.evidence, None)
      then Success(db) else Failure(Hold)
    else if m.evidence.txid != m.txid then Failure(Hold)
    else WithSubmission(db, m.epochId, m.netuid, m.logDigest, m.evidence)
  }

  /** A mortal transaction is only ever included inside its era. */
  predicate InEra(ev: Evidence, block: int) {
    ev.submitBlock <= block && (ev.mortalEra.Some? ==> block <= ev.submitBlock + ev.mortalEra.value)
  }

  predicate WasSent(sent: seq<Evidence>, txid: TxHash) {
    exists i :: 0 <= i < |sent| && sent[i].txid == txid
  }

  /** A complete finalized search finds a landed transaction. */
  predicate SearchFindsNothing(chain: Chain, ev: Evidence, last: int) {
    !(ev.txid in chain.landed && ev.submitBlock <= chain.landed[ev.txid] <= last)
  }

  // -- the steps -------------------------------------------------------------

  function StepRestore(s: State, p: Pid, job: Job, m: Marker): State {
    var r := Restored(s.w.db, m);
    if r.Failure? then Leave(s, p)
    else
      var s' := PutDb(s, r.value);
      var row := ByHash(s'.w.db, m.txid);
      if row.None? || row.value.outcome.None? || row.value.outcome.value.Confirmed?
      then Goto(s', p, CheckAnchored(job, Some(m.txid)))
      else Goto(s', p, DropStaleFence(job, m.txid))
  }

  function StepCheckAnchored(s: State, p: Pid, job: Job, pending: Option<TxHash>): State {
    var record := Get(s.w.db, job.epochId);
    if record.None? || record.value.anchorTxid.None? then Goto(s, p, PrepareOrResume(job))
    else if pending.None? || pending != record.value.anchorTxid then Leave(s, p)
    else Goto(s, p, StoreConfirmed(pending.value, record.value.anchorBlock))
  }

  function StepPrepare(s: State, p: Pid, job: Job, answer: Answer): State {
    var newest := Newest(s.w.db, job.epochId);
    if newest.None? || newest.value.Expired() then
      if !answer.Prepared? || answer.evidence.submitBlock >= job.closeBlock + job.confirmationDepth then Leave(s, p)
      else
        var r := WithSubmission(s.w.db, job.epochId, job.netuid, job.logDigest, answer.evidence);
        if r.Failure? then Leave(s, p)
        else
          var row := ByHash(r.value, answer.evidence.txid);
          if row.None? || row.value.outcome.Some? then Leave(PutDb(s, r.value), p)
          else Goto(PutDb(s, r.value), p, RaiseFence(job, answer.evidence, true))
    else if newest.value.outcome.Some? && newest.value.outcome.value.OperatorAcknowledged? then Leave(s, p)
    else if newest.value.netuid != job.netuid || newest.value.logDigest != job.logDigest then Leave(s, p)
    else Goto(s, p, RaiseFence(job, newest.value.evidence, false))
  }

  function StepRaiseFence(s: State, p: Pid, job: Job, ev: Evidence, isNew: bool): State {
    var r := WithMark(s.w.fence, Marker(ev.txid, job.epochId, job.netuid, job.logDigest, ev));
    if r.Failure? then Leave(s, p)
    else Goto(PutFence(s, r.value), p, if isNew then Send(job, ev) else AwaitInclusion(job, ev))
  }

  function StepAwait(s: State, p: Pid, job: Job, ev: Evidence, answer: Answer): State {
    match answer
    case Included(block) =>
      if ev.txid in s.w.chain.landed && s.w.chain.landed[ev.txid] == block <= s.w.chain.head
      then Goto(s, p, StoreAnchor(job, ev, block)) else Leave(s, p)
    case Absent =>
      if ev.mortalEra.None? || job.confirmationDepth < 0 then Leave(s, p)
      else
        var era := ev.mortalEra.value;
        var last := ev.submitBlock + era + job.confirmationDepth;
        if last < s.w.chain.head && SearchFindsNothing(s.w.chain, ev, last) then
          var proof := AbsenceProof(ev.txid, s.w.chain.head, ev.submitBlock, last, era, job.confirmationDepth);
          Goto(s, p, StoreExpiry(job, ev, proof))
        else Leave(s, p)
    case _ => Leave(s, p)
  }

  function StepLowerFence(s: State, p: Pid, txid: TxHash, next: Pc): State {
    var r := WithoutMark(s.w.fence, txid);
    if r.Failure? then Leave(s, p)
    else if next.Idle? then Leave(PutFence(s, r.value), p)
    else Goto(PutFence(s, r.value), p, next)
  }

  function StepOutcome(s: State, p: Pid, txid: TxHash, outcome: Outcome): State {
    var r := WithOutcome(s.w.db, txid, outcome);
    if r.Failure? then Leave(s, p) else Goto(PutDb(s, r.value), p, LowerFence(txid))
  }

  function StepStoreAnchor(s: State, p: Pid, job: Job, ev: Evidence, block: int): State {
    var r := WithAnchor(s.w.db, job.epochId, ev.txid, Some(block));
    if r.Failure? then Leave(s, p) else Goto(PutDb(s, r.value), p, StoreConfirmed(ev.txid, Some(block)))
  }

  function StepRestoreForClear(s: State, p: Pid, expected: Option<int>, m: Marker): State {
    var r := Restored(s.w.db, m);
    if r.Failure? || (expected.Some? && expected.value != m.netuid) then
      Leave(if r.Success? then PutDb(s, r.value) else s, p)
    else Goto(PutDb(s, r.value), p, DecideClear(m.txid))
  }

  function StepDecideClear(s: State, p: Pid, txid: TxHash): State {
    var row := ByHash(s.w.db, txid);
    if row.None? then Leave(s, p)
    else
      var record := Get(s.w.db, row.value.epochId);
      var indexed := if record.Some? then record.value.anchorTxid else None;
      match row.value.outcome
      case None => if indexed != Some(txid) then Leave(s, p)
                   else Goto(s, p, StoreConfirmed(txid, record.value.anchorBlock))
      case Some(Confirmed(_)) => if indexed != Some(txid) then Leave(s, p) else Goto(s, p, LowerFence(txid))
      case Some(_) => Goto(s, p, LowerFence(txid))
  }

  function StepFindAcknowledged(s: State, p: Pid, txid: TxHash): State {
    var db' :=
      if ByHash(s.w.db, txid).None? && s.w.fence.Some? && s.w.fence.value.txid == txid
        then Restored(s.w.db, s.w.fence.value)
      else Success(s.w.db);
    if db'.Failure? then Leave(s, p)
    else
      var row := ByHash(db'.value, txid);
      if row.None? || row.value.outcome.Some? then Leave(PutDb(s, db'.value), p)
      else Goto(PutDb(s, db'.value), p, StoreAcknowledged(txid))
  }

  function Step(s: State, p: Pid, answer: Answer): State {
    match PcOf(s, p)
    case Idle => s
    case PeekJournal(job) =>
      var newest := Newest(s.w.db, job.epochId);
      Goto(s, p, PeekFence(job, if newest.Some? then Some(newest.value.evidence.txid) else None))
    case PeekFence(job, pending) =>
      var ours := s.w.fence.Some? && s.w.fence.value.epochId == job.epochId;
      Goto(s, p, EnterToAnchor(job, pending, if ours then s.w.fence else None))
    case EnterToAnchor(job, pending, seen) =>
      if seen.Some? then Enter(s, p, Some(seen.value.txid), RestoreForAnchor(job, seen.value))
      else Enter(s, p, pending, CheckAnchored(job, pending))
    case RestoreForAnchor(job, m) => StepRestore(s, p, job, m)
    case DropStaleFence(job, txid) => StepLowerFence(s, p, txid, CheckAnchored(job, Some(txid)))
    case CheckAnchored(job, pending) => StepCheckAnchored(s, p, job, pending)
    case PrepareOrResume(job) => StepPrepare(s, p, job, answer)
    case RaiseFence(job, ev, isNew) => StepRaiseFence(s, p, job, ev, isNew)
    case Send(job, ev) => Goto(PutChain(s, s.w.chain.(sent := s.w.chain.sent + [ev])), p, AwaitInclusion(job, ev))
    case AwaitInclusion(job, ev) => StepAwait(s, p, job, ev, answer)
    case StoreExpiry(job, ev, proof) => StepOutcome(s, p, ev.txid, ExpiredAbsent(proof))
    case StoreAnchor(job, ev, block) => StepStoreAnchor(s, p, job, ev, block)
    case StoreConfirmed(txid, block) => StepOutcome(s, p, txid, Confirmed(block))
    case LowerFence(txid) => StepLowerFence(s, p, txid, Idle)
    case PeekToClear(expected) =>
      if s.w.fence.None? then Leave(s, p) else Goto(s, p, EnterToClear(expected, s.w.fence.value))
    case EnterToClear(expected, m) => Enter(s, p, Some(m.txid), RestoreForClear(expected, m))
    case RestoreForClear(expected, m) => StepRestoreForClear(s, p, expected, m)
    case DecideClear(txid) => StepDecideClear(s, p, txid)
    case EnterToAcknowledge(txid) => Enter(s, p, Some(txid), FindAcknowledged(txid))
    case FindAcknowledged(txid) => StepFindAcknowledged(s, p, txid)
    case StoreAcknowledged(txid) => StepOutcome(s, p, txid, OperatorAcknowledged(txid))
    case EnterUnrelated => Enter(s, p, None, WriteUnrelated)
    case WriteUnrelated => Leave(s, p)
  }

  function Apply(s: State, a: Action): State {
    match a
    case Start(p, pc) => if PcOf(s, p).Idle? && Startable(pc) then Goto(s, p, pc) else s
    case Act(p, answer) => Step(s, p, answer)
    case Abort(p) => Leave(s, p)
    case Index(e, pointer) =>
      var r := WithPointer(s.w.db, e, pointer);
      if r.Success? then PutDb(s, r.value) else s
    case Tombstone(e) =>
      var r := WithTombstone(s.w.db, e);
      if r.Success? then PutDb(s, r.value) else s
    case Land(txid, block) =>
      if && WasSent(s.w.chain.sent, txid) && txid !in s.w.chain.landed && s.w.chain.head < block
         && forall i :: 0 <= i < |s.w.chain.sent| && s.w.chain.sent[i].txid == txid ==> InEra(s.w.chain.sent[i], block)
      then PutChain(s, s.w.chain.(landed := s.w.chain.landed[txid := block])) else s
    case Finalize(head) =>
      if s.w.chain.head <= head then PutChain(s, s.w.chain.(head := head)) else s
  }

  function Run(s: State, actions: seq<Action>): State
    decreases |actions|
  {
    if actions == [] then s else Run(Apply(s, actions[0]), actions[1..])
  }
}
