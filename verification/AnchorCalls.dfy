/** The anchor entry points (vidaio/authority/anchoring.py) as the sequential code they are: calls
    on the index, the lane and the network, one after the other. Every method carries a ghost state
    of the machine along and takes the machine's step with each statement, so each call is proved to
    be a run of the machine and inherits what holds of every interleaving. */
module AnchorCalls {
  import opened Wrappers
  import opened EpochIndex
  import opened WriterLane
  import opened AnchorProtocol
  import opened AnchorSafety
  import opened AnchorRecovery

  /** What the read-only confirmation of a signed hash found out. */
  datatype Finding = Found(block: int) | NotThere(proof: AbsenceProof) | Unknown

  /** The node's answer as far as the finalized chain bears it out. */
  function Verdict(chain: Chain, ev: Evidence, depth: int, answer: Answer): Finding {
    match answer
    case Included(block) =>
      if ev.txid in chain.landed && chain.landed[ev.txid] == block <= chain.head then Found(block) else Unknown
    case Absent =>
      if ev.mortalEra.None? || depth < 0 then Unknown
      else
        var last := ev.submitBlock + ev.mortalEra.value + depth;
        if last < chain.head && SearchFindsNothing(chain, ev, last)
        then NotThere(AbsenceProof(ev.txid, chain.head, ev.submitBlock, last, ev.mortalEra.value, depth)) else Unknown
    case _ => Unknown
  }

  class Network {
    var chain: Chain

    constructor ()
      ensures chain == INITIAL.w.chain
    {
      chain := Chain([], map[], 0);
    }

    /** `submit_authority_anchor`: handed to the network once, whatever the response. */
    method Submit(ev: Evidence)
      modifies this
      ensures chain == old(chain).(sent := old(chain.sent) + [ev])
    {
      chain := chain.(sent := chain.sent + [ev]);
    }

    /** `confirm_authority_anchor` and the finalized receipt read only. */
    method Confirm(ev: Evidence, depth: int, answer: Answer) returns (found: Finding)
      ensures found == Verdict(chain, ev, depth, answer)
    {
      found := Verdict(chain, ev, depth, answer);
    }
  }

  /** Inside the lane, machine and objects agree. */
  ghost predicate InLane(t: State, index: Index, lane: Lane, net: Network, p: Pid)
    reads index, lane, net
  {
    t.w == World(index.Content(), lane.fence, net.chain) && t.lock == Some(p) && lane.holder == Some(p)
  }

  /** The machine has returned already; the objects give the lock back next. */
  ghost predicate Leaving(t: State, index: Index, lane: Lane, net: Network, p: Pid)
    reads index, lane, net
  {
    && t.w == World(index.Content(), lane.fence, net.chain) && t.lock.None? && PcOf(t, p).Idle?
    && lane.holder == Some(p)
  }

  ghost predicate Outside(t: State, index: Index, lane: Lane, net: Network, p: Pid)
    reads index, lane, net
  {
    t.w == World(index.Content(), lane.fence, net.chain) && t.lock == lane.holder && PcOf(t, p).Idle?
  }

  /** The one step of the machine that a statement stands for. */
  ghost method Next(s: State, t: State, p: Pid, answer: Answer) returns (t': State)
    requires OwnRun(s, t, p)
    ensures t' == Step(t, p, answer) && OwnRun(s, t', p)
  {
    OwnStep(s, t, p, Act(p, answer));
    t' := Step(t, p, answer);
  }

  method RestoreMarkerSubmission(index: Index, m: Marker) returns (r: Result<Submission, AnchorError>)
    modifies index
    ensures match Restored(old(index.Content()), m)
            case Success(db) => index.Content() == db && r.Success? && Some(r.value) == ByHash(db, m.txid)
            case Failure(_) => index.Content() == old(index.Content()) && r.Failure?
  {
    var recorded := ByHash(index.Content(), m.txid);
    if recorded.Some? {
      var row := recorded.value;
      if row.epochId != m.epochId || row.netuid != m.netuid || row.logDigest != m.logDigest ||
        row.evidence != m.evidence {
        return Failure(Hold);
      }
      return Success(row);
    }
    if m.evidence.txid != m.txid {
      return Failure(Hold);
    }
    r := index.RecordAnchorSubmission(m.epochId, m.netuid, m.logDigest, m.evidence);
  }

  /** A fence whose row the journal lost brings it back exactly as a new submission would be recorded;
      one whose row is there is only checked against it. */
  lemma RestoreBringsBack(db: Db, m: Marker)
    requires IndexOk(db)
    ensures Unused(db, m.txid) ==>
              && (Restored(db, m).Success? <==>
                    && m.evidence.txid == m.txid && HexHash(m.txid)
                    && Open(db, m.epochId, m.logDigest) && AllExpired(db, m.epochId))
              && (Restored(db, m).Success? ==>
                    Restored(db, m).value == db.(journal := db.journal + [RowOfMarker(m)]))
    ensures forall i :: 0 <= i < |db.journal| && db.journal[i].evidence.txid == m.txid ==>
              && (Restored(db, m).Success? <==> db.journal[i].(outcome := None) == RowOfMarker(m))
              && (Restored(db, m).Success? ==> Restored(db, m).value == db)
  {
    if Unused(db, m.txid) && m.evidence.txid == m.txid {
      NewHashIsRecorded(db, m.epochId, m.netuid, m.logDigest, m.evidence);
    }
    forall i | 0 <= i < |db.journal| && db.journal[i].evidence.txid == m.txid ensures RowOf(db.journal, m.txid) == i {}
  }

  /** What the answers are worth: an inclusion exactly at the block where the finalized chain has it. */
  lemma InclusionIsSeen(chain: Chain, ev: Evidence, depth: int, block: int)
    ensures Verdict(chain, ev, depth, Included(block)) ==
            if OnChain(chain, ev.txid, block) then Found(block) else Unknown
  {}

  /** An absence exactly once the era and the depth behind it are finalized and the hash, which was
      sent, never landed. */
  lemma AbsenceIsSeen(w: World, ev: Evidence, depth: int)
    requires Core(w) && ev in w.chain.sent
    ensures Verdict(w.chain, ev, depth, Absent).NotThere? <==>
              && ev.mortalEra.Some? && 0 <= depth && ev.submitBlock + ev.mortalEra.value + depth < w.chain.head
              && ev.txid !in w.chain.landed
    ensures !Verdict(w.chain, ev, depth, Absent).Found?
  {
    var i :| 0 <= i < |w.chain.sent| && w.chain.sent[i] == ev;
    if ev.txid in w.chain.landed { assert InEra(w.chain.sent[i], w.chain.landed[w.chain.sent[i].txid]); }
  }

  ghost predicate Finishes(pc: Pc, txid: TxHash, outcome: Outcome) {
    match pc
    case StoreConfirmed(x, b) => x == txid && outcome == Confirmed(b)
    case StoreExpiry(_, ev, proof) => ev.txid == txid && outcome == ExpiredAbsent(proof)
    case StoreAcknowledged(x) => x == txid && outcome == OperatorAcknowledged(txid)
    case _ => false
  }

  /** The caller is back where it was before the call, the world is `w`. */
  ghost predicate Returned(t: State, p: Pid, w: World) {
    t.w == w && t.lock.None? && PcOf(t, p).Idle?
  }

  ghost predicate GoesOn(t: State, p: Pid, w: World, pc: Pc) {
    t.w == w && t.lock == Some(p) && PcOf(t, p) == pc
  }

  lemma OutcomeMove(t: State, p: Pid, txid: TxHash, outcome: Outcome)
    requires t.lock == Some(p) && Finishes(PcOf(t, p), txid, outcome)
    ensures match WithOutcome(t.w.db, txid, outcome)
            case Success(db) => GoesOn(Step(t, p, Nothing), p, t.w.(db := db), LowerFence(txid))
            case Failure(_) => Returned(Step(t, p, Nothing), p, t.w)
  {
    assert Step(t, p, Nothing) == StepOutcome(t, p, txid, outcome);
  }

  lemma LowerMove(t: State, p: Pid, txid: TxHash)
    requires t.lock == Some(p) && PcOf(t, p) == LowerFence(txid) && Admits(t.w.fence, Some(txid))
    ensures Returned(Step(t, p, Nothing), p, t.w.(fence := None))
  {
    assert Step(t, p, Nothing) == StepLowerFence(t, p, txid, Idle);
  }

  /** Inside the lane the fence is absent or names the hash, so clearing it never fails. */
  method ClearPending(index: Index, lane: Lane, net: Network, p: Pid, txid: TxHash, ghost s: State, ghost t: State)
    returns (ghost t': State)
    requires OwnRun(s, t, p) && InLane(t, index, lane, net, p) && PcOf(t, p) == LowerFence(txid)
    requires Admits(lane.fence, Some(txid))
    modifies lane
    ensures OwnRun(s, t', p) && Leaving(t', index, lane, net, p) && lane.fence.None?
    ensures t' == Step(t, p, Nothing)
  {
    LowerMove(t, p, txid);
    var cleared := lane.Clear(p, txid);
    assert cleared.Success?;
    t' := Next(s, t, p, Nothing);
  }

  /** The shared tail: the outcome first, then the fence. */
  method FinishAndLower(index: Index, lane: Lane, net: Network, p: Pid, txid: TxHash, outcome: Outcome,
                        ghost s: State, ghost t: State)
    returns (r: Result<Submission, AnchorError>, ghost t': State)
    requires OwnRun(s, t, p) && InLane(t, index, lane, net, p) && Finishes(PcOf(t, p), txid, outcome)
    requires Admits(lane.fence, Some(txid))
    modifies index, lane
    ensures OwnRun(s, t', p) && Leaving(t', index, lane, net, p) && t' == Alone(t, p, 2)
    ensures match WithOutcome(old(index.Content()), txid, outcome)
            case Success(db) =>
              index.Content() == db && lane.fence.None? && r.Success? && Some(r.value) == ByHash(db, txid)
            case Failure(_) => index.Content() == old(index.Content()) && lane.fence == old(lane.fence) && r.Failure?
  {
    OutcomeMove(t, p, txid, outcome);
    r := index.FinishAnchorSubmission(txid, outcome);
    t' := Next(s, t, p, Nothing);
    AloneStep(t, p, 2);
    if r.Success? {
      AloneStep(t', p, 1);
      t' := ClearPending(index, lane, net, p, txid, s, t');
    } else {
      AloneIdle(t', p, 1);
    }
  }

  // -- acknowledge_anchor_submission ---------------------------------------------

  lemma FindAcknowledgedMove(t: State, p: Pid, txid: TxHash)
    requires t.lock == Some(p) && PcOf(t, p) == FindAcknowledged(txid)
    ensures var restore := ByHash(t.w.db, txid).None? && FenceNames(t.w.fence, txid);
            match (if restore then Restored(t.w.db, t.w.fence.value) else Success(t.w.db))
            case Failure(_) => Returned(Step(t, p, Nothing), p, t.w)
            case Success(db) =>
              if ByHash(db, txid).None? || ByHash(db, txid).value.outcome.Some?
              then Returned(Step(t, p, Nothing), p, t.w.(db := db))
              else GoesOn(Step(t, p, Nothing), p, t.w.(db := db), StoreAcknowledged(txid))
  {
    assert Step(t, p, Nothing) == StepFindAcknowledged(t, p, txid);
  }

  /** Entering the lane: the machine polls a held one, the code gives up at the deadline. */
  lemma EnterMove(s: State, t: State, p: Pid, txid: Option<TxHash>, pc: Pc)
    requires OwnRun(s, t, p) && t.lock != Some(p) && Step(t, p, Nothing) == Enter(t, p, txid, pc)
    ensures t.lock.None? && Admits(t.w.fence, txid) ==> GoesOn(Step(t, p, Nothing), p, t.w, pc)
    ensures !(t.lock.None? && Admits(t.w.fence, txid)) ==>
              OwnRun(s, Leave(t, p), p) && Leave(t, p).w == t.w && Leave(t, p).lock == t.lock
  {
    OwnStep(s, t, p, Abort(p));
  }

  /** Takes the lane, or gives the whole call up. Another task's release is not a step of this call, so
      here a lane that is held stays held until the deadline; the machine's caller keeps polling. */
  method EnterLane(index: Index, lane: Lane, net: Network, p: Pid, txid: Option<TxHash>, ghost pc: Pc,
                   ghost s: State, ghost t: State)
    returns (r: Result<(), AnchorError>, ghost t': State)
    requires OwnRun(s, t, p) && t.w == World(index.Content(), lane.fence, net.chain) && t.lock == lane.holder != Some(p)
    requires Step(t, p, Nothing) == Enter(t, p, txid, pc)
    modifies lane`holder
    ensures OwnRun(s, t', p)
    ensures r.Success? <==> old(lane.holder).None? && Admits(lane.fence, txid)
    ensures r.Success? ==> InLane(t', index, lane, net, p) && PcOf(t', p) == pc && t'.w == t.w
    ensures r.Success? ==> t' == Step(t, p, Nothing)
    ensures r.Failure? ==> Outside(t', index, lane, net, p) && lane.holder == old(lane.holder)
    ensures r.Failure? ==> r.error == if old(lane.holder).Some? then LaneTimeout else LanePending
  {
    EnterMove(s, t, p, txid, pc);
    r := lane.Acquire(p, txid, 0, None);
    if r.Success? {
      t' := Next(s, t, p, Nothing);
    } else {
      t' := Leave(t, p);
    }
  }

  /** The hash is pending in the journal, or its fence brings a pending row back. */
  predicate FindsPending(db: Db, fence: Option<Marker>, txid: TxHash) {
    var row := ByHash(db, txid);
    if row.Some? then row.value.outcome.None?
    else if fence.None? || fence.value.txid != txid then false
    else
      var r := Restored(db, fence.value);
      r.Success? && ByHash(r.value, txid).Some? && ByHash(r.value, txid).value.outcome.None?
  }

  method ComesToAcknowledge(index: Index, lane: Lane, net: Network, p: Pid, txid: TxHash, ghost s: State)
    returns (r: Result<(), AnchorError>, ghost t: State)
    requires Outside(s, index, lane, net, p) && lane.holder != Some(p)
    modifies lane`holder
    ensures OwnRun(s, t, p) && (r.Success? <==> old(lane.holder).None? && Admits(lane.fence, Some(txid)))
    ensures r.Success? ==> InLane(t, index, lane, net, p) && PcOf(t, p) == FindAcknowledged(txid)
    ensures r.Failure? ==> Outside(t, index, lane, net, p) && lane.holder == old(lane.holder)
  {
    OwnStart(s, p);
    OwnStep(s, s, p, Start(p, EnterToAcknowledge(txid)));
    t := Goto(s, p, EnterToAcknowledge(txid));
    r, t := EnterLane(index, lane, net, p, Some(txid), FindAcknowledged(txid), s, t);
  }

  /** `acknowledge_anchor_submission`: exactly a pending hash on a free lane that admits it can be
      acknowledged, no transaction is issued, and success leaves the row acknowledged and no fence. */
  method AcknowledgeAnchorSubmission(index: Index, lane: Lane, net: Network, p: Pid, txid: TxHash, ghost s: State)
    returns (r: Result<Submission, AnchorError>, ghost t: State)
    requires Outside(s, index, lane, net, p) && lane.holder != Some(p)
    modifies index, lane
    ensures OwnRun(s, t, p) && Outside(t, index, lane, net, p)
    ensures r.Success? ==> r.value.outcome == Some(OperatorAcknowledged(txid))
    ensures if old(lane.holder).None? && Admits(old(lane.fence), Some(txid))
            then Acknowledges(old(index.Content()), old(lane.fence), txid, r.Success?, index.Content(), lane.fence)
            else r.Failure? && index.Content() == old(index.Content()) && lane.fence == old(lane.fence)
  {
    var entered;
    entered, t := ComesToAcknowledge(index, lane, net, p, txid, s);
    if entered.Failure? {
      return Failure(entered.error), t;
    }
    r, t := AcknowledgeInLane(index, lane, net, p, txid, s, t);
    lane.Release(p);
  }

  /** The row to acknowledge, brought back from the fence when the journal lacks it. */
  method FindPending(index: Index, lane: Lane, net: Network, p: Pid, txid: TxHash, ghost s: State, ghost t: State)
    returns (r: Option<Submission>, ghost t': State)
    requires OwnRun(s, t, p) && InLane(t, index, lane, net, p) && PcOf(t, p) == FindAcknowledged(txid)
    modifies index
    ensures OwnRun(s, t', p)
    ensures r.None? ==> Leaving(t', index, lane, net, p)
    ensures r.Some? ==> InLane(t', index, lane, net, p) && PcOf(t', p) == StoreAcknowledged(txid)
                        && r == ByHash(index.Content(), txid) && r.value.outcome.None?
    ensures r.Some? <==> FindsPending(old(index.Content()), lane.fence, txid)
    ensures index.Content() == Searched(old(index.Content()), lane.fence, txid)
  {
    FindAcknowledgedMove(t, p, txid);
    r := FindRow(index, lane, txid);
    t' := Next(s, t, p, Nothing);
    if r.Some? && r.value.outcome.Some? {
      r := None;
    }
  }

  /** The journal after the row of the hash was looked for. */
  function Searched(db: Db, fence: Option<Marker>, txid: TxHash): Db {
    if ByHash(db, txid).Some? || fence.None? || fence.value.txid != txid then db
    else
      var r := Restored(db, fence.value);
      if r.Success? then r.value else db
  }

  /** Exactly a pending hash is acknowledged: its one row is closed, and the fence goes. */
  ghost predicate Acknowledges(db: Db, fence: Option<Marker>, txid: TxHash, won: bool, later: Db,
                               laterFence: Option<Marker>)
  {
    var found := Searched(db, fence, txid);
    var at := RowOf(found.journal, txid);
    && (won <==> FindsPending(db, fence, txid))
    && (won ==> at < |found.journal| && laterFence.None?)
    && (won ==> later.journal == found.journal[at := found.journal[at].(outcome := Some(OperatorAcknowledged(txid)))])
    && later == found.(journal := later.journal)
    && (!won ==> later == found && laterFence == fence)
  }

  method FindRow(index: Index, lane: Lane, txid: TxHash) returns (r: Option<Submission>)
    modifies index
    ensures index.Content() == Searched(old(index.Content()), lane.fence, txid)
    ensures r == ByHash(index.Content(), txid)
  {
    r := ByHash(index.Content(), txid);
    if r.None? && lane.fence.Some? && lane.fence.value.txid == txid {
      var restored := RestoreMarkerSubmission(index, lane.fence.value);
      r := if restored.Success? then Some(restored.value) else None;
    }
  }

  method AcknowledgeInLane(index: Index, lane: Lane, net: Network, p: Pid, txid: TxHash, ghost s: State, ghost t: State)
    returns (r: Result<Submission, AnchorError>, ghost t': State)
    requires OwnRun(s, t, p) && InLane(t, index, lane, net, p) && PcOf(t, p) == FindAcknowledged(txid)
    requires Admits(lane.fence, Some(txid))
    modifies index, lane
    ensures OwnRun(s, t', p) && Leaving(t', index, lane, net, p)
    ensures r.Success? ==> r.value.outcome == Some(OperatorAcknowledged(txid))
    ensures Acknowledges(old(index.Content()), old(lane.fence), txid, r.Success?, index.Content(), lane.fence)
  {
    var submission;
    submission, t' := FindPending(index, lane, net, p, txid, s, t);
    if submission.None? {
      return Failure(NotPending), t';
    }
    AcknowledgeMakesTerminal(index.Content(), txid);
    r, t' := FinishAndLower(index, lane, net, p, txid, OperatorAcknowledged(txid), s, t');
  }

  lemma AcknowledgeMakesTerminal(db: Db, txid: TxHash)
    requires ByHash(db, txid).Some? && ByHash(db, txid).value.outcome.None?
    ensures WithOutcome(db, txid, OperatorAcknowledged(txid)).Success?
    ensures ByHash(WithOutcome(db, txid, OperatorAcknowledged(txid)).value, txid)
            == Some(ByHash(db, txid).value.(outcome := Some(OperatorAcknowledged(txid))))
  {
    var r := RowOf(db.journal, txid);
    var later := WithOutcome(db, txid, OperatorAcknowledged(txid)).value;
    assert later.journal[r].evidence.txid == txid;
    assert RowOf(later.journal, txid) == r;
  }

  // -- clear_confirmed_anchor_writer ------------------------------------------------

  lemma RestoreForClearMove(t: State, p: Pid, expected: Option<int>, m: Marker)
    requires t.lock == Some(p) && PcOf(t, p) == RestoreForClear(expected, m)
    ensures match Restored(t.w.db, m)
            case Failure(_) => Returned(Step(t, p, Nothing), p, t.w)
            case Success(db) =>
              if expected.Some? && expected.value != m.netuid then Returned(Step(t, p, Nothing), p, t.w.(db := db))
              else GoesOn(Step(t, p, Nothing), p, t.w.(db := db), DecideClear(m.txid))
  {
    assert Step(t, p, Nothing) == StepRestoreForClear(t, p, expected, m);
  }

  lemma DecideClearMove(t: State, p: Pid, txid: TxHash)
    requires t.lock == Some(p) && PcOf(t, p) == DecideClear(txid) && ByHash(t.w.db, txid).Some?
    ensures var row := ByHash(t.w.db, txid).value;
            var record := Get(t.w.db, row.epochId);
            var carries := record.Some? && record.value.anchorTxid == Some(txid);
            var t' := Step(t, p, Nothing);
            if row.outcome.None? && carries then GoesOn(t', p, t.w, StoreConfirmed(txid, record.value.anchorBlock))
            else if row.outcome.Some? && (row.outcome.value.Confirmed? ==> carries)
              then GoesOn(t', p, t.w, LowerFence(txid))
            else Returned(t', p, t.w)
  {
    assert Step(t, p, Nothing) == StepDecideClear(t, p, txid);
  }

  lemma ClearFindsNothing(s: State, p: Pid, netuid: Option<int>)
    requires PcOf(s, p).Idle? && s.lock != Some(p) && s.w.fence.None?
    ensures OwnRun(s, Goto(s, p, Idle), p) && CallClear(s, p, netuid) == Goto(s, p, Idle)
  {
    var s1 := Goto(s, p, PeekToClear(netuid));
    OwnStart(s, p);
    OwnStep(s, s, p, Start(p, PeekToClear(netuid)));
    OwnStep(s, s1, p, Act(p, Nothing));
    GotoTwice(s, p, PeekToClear(netuid), Idle);
    AloneStep(s1, p, 6);
    AloneIdle(Goto(s, p, Idle), p, 5);
  }

  /** The fence that was read before the lane is asked for. */
  lemma ClearPeeks(s: State, p: Pid, netuid: Option<int>)
    requires PcOf(s, p).Idle? && s.lock != Some(p) && s.w.fence.Some?
    ensures var t := Goto(s, p, EnterToClear(netuid, s.w.fence.value));
            && OwnRun(s, t, p) && CallClear(s, p, netuid) == Alone(Step(t, p, Nothing), p, 4)
            && Step(t, p, Nothing) == Enter(t, p, Some(s.w.fence.value.txid), RestoreForClear(netuid, s.w.fence.value))
  {
    var s1 := Goto(s, p, PeekToClear(netuid));
    OwnStart(s, p);
    OwnStep(s, s, p, Start(p, PeekToClear(netuid)));
    OwnStep(s, s1, p, Act(p, Nothing));
    GotoTwice(s, p, PeekToClear(netuid), EnterToClear(netuid, s.w.fence.value));
    AloneStep(s1, p, 6);
    AloneStep(Goto(s, p, EnterToClear(netuid, s.w.fence.value)), p, 5);
  }

  method ClearConfirmedAnchorWriter(index: Index, lane: Lane, net: Network, p: Pid, netuid: Option<int>, ghost s: State)
    returns (r: Result<bool, AnchorError>, ghost t: State)
    requires Outside(s, index, lane, net, p) && lane.holder != Some(p)
    modifies index, lane
    ensures OwnRun(s, t, p) && Outside(t, index, lane, net, p)
    ensures old(lane.holder).None? ==> t == CallClear(s, p, netuid)
    ensures r == Success(true) ==> lane.fence.None? && old(lane.fence).Some?
    ensures r != Success(true) ==> lane.fence == old(lane.fence)
  {
    var marker := lane.fence;
    if marker.None? {
      ClearFindsNothing(s, p, netuid);
      t := Goto(s, p, Idle);
      return Success(false), t;
    }
    var m := marker.value;
    ClearPeeks(s, p, netuid);
    t := Goto(s, p, EnterToClear(netuid, m));
    var entered;
    entered, t := EnterLane(index, lane, net, p, Some(m.txid), RestoreForClear(netuid, m), s, t);
    if entered.Failure? {
      return Failure(entered.error), t;
    }
    r, t := ClearInLane(index, lane, net, p, netuid, m, s, t);
    lane.Release(p);
  }

  method ClearInLane(index: Index, lane: Lane, net: Network, p: Pid, netuid: Option<int>, m: Marker,
                     ghost s: State, ghost t: State)
    returns (r: Result<bool, AnchorError>, ghost t': State)
    requires OwnRun(s, t, p) && InLane(t, index, lane, net, p) && PcOf(t, p) == RestoreForClear(netuid, m)
    requires lane.fence == Some(m)
    modifies index, lane
    ensures OwnRun(s, t', p) && Leaving(t', index, lane, net, p) && t' == Alone(t, p, 4)
    ensures lane.fence == if r == Success(true) then None else old(lane.fence)
  {
    RestoreForClearMove(t, p, netuid, m);
    var restored := RestoreMarkerSubmission(index, m);
    AloneStep(t, p, 4);
    t' := Next(s, t, p, Nothing);
    if restored.Failure? {
      AloneIdle(t', p, 3);
      return Failure(restored.error), t';
    }
    var submission := restored.value;
    if netuid.Some? && submission.netuid != netuid.value {
      AloneIdle(t', p, 3);
      return Failure(Hold), t';
    }
    r, t' := DecideInLane(index, lane, net, p, m, submission, s, t');
  }

  method DecideInLane(index: Index, lane: Lane, net: Network, p: Pid, m: Marker, submission: Submission,
                      ghost s: State, ghost t: State)
    returns (r: Result<bool, AnchorError>, ghost t': State)
    requires OwnRun(s, t, p) && InLane(t, index, lane, net, p) && PcOf(t, p) == DecideClear(m.txid)
    requires lane.fence == Some(m) && Some(submission) == ByHash(index.Content(), m.txid)
    modifies index, lane
    ensures OwnRun(s, t', p) && Leaving(t', index, lane, net, p) && t' == Alone(t, p, 3)
    ensures lane.fence == if r == Success(true) then None else old(lane.fence)
  {
    DecideClearMove(t, p, m.txid);
    var record := Get(index.Content(), submission.epochId);
    AloneStep(t, p, 3);
    t' := Next(s, t, p, Nothing);
    if PcOf(t', p).Idle? { AloneIdle(t', p, 2); } else { AloneStep(t', p, 2); }
    if submission.outcome.None? && record.Some? && record.value.anchorTxid.Some? {
      if record.value.anchorTxid.value != m.txid {
        return Failure(Hold), t';
      }
      var finished;
      finished, t' := FinishAndLower(index, lane, net, p, m.txid, Confirmed(record.value.anchorBlock), s, t');
      return (if finished.Success? then Success(true) else Failure(finished.error)), t';
    }
    if submission.outcome.None? {
      return Success(false), t';
    }
    if submission.outcome.value.Confirmed? && (record.None? || record.value.anchorTxid != Some(m.txid)) {
      return Failure(Hold), t';
    }
    t' := ClearPending(index, lane, net, p, m.txid, s, t');
    AloneIdle(t', p, 1);
    r := Success(true);
  }

  // -- anchor_epoch ---------------------------------------------------------------

  lemma RestoreMove(t: State, p: Pid, job: Job, m: Marker)
    requires t.lock == Some(p) && PcOf(t, p) == RestoreForAnchor(job, m)
    ensures match Restored(t.w.db, m)
            case Failure(_) => Returned(Step(t, p, Nothing), p, t.w)
            case Success(db) =>
              var row := ByHash(db, m.txid);
              var drop := row.Some? && row.value.outcome.Some? && !row.value.outcome.value.Confirmed?;
              GoesOn(Step(t, p, Nothing), p, t.w.(db := db),
                     if drop then DropStaleFence(job, m.txid) else CheckAnchored(job, Some(m.txid)))
  {
    assert Step(t, p, Nothing) == StepRestore(t, p, job, m);
  }

  lemma DropStaleMove(t: State, p: Pid, job: Job, txid: TxHash)
    requires t.lock == Some(p) && PcOf(t, p) == DropStaleFence(job, txid) && Admits(t.w.fence, Some(txid))
    ensures GoesOn(Step(t, p, Nothing), p, t.w.(fence := None), CheckAnchored(job, Some(txid)))
  {
    assert Step(t, p, Nothing) == StepLowerFence(t, p, txid, CheckAnchored(job, Some(txid)));
  }

  lemma CheckAnchoredMove(t: State, p: Pid, job: Job, pending: Option<TxHash>)
    requires t.lock == Some(p) && PcOf(t, p) == CheckAnchored(job, pending)
    ensures var record := Get(t.w.db, job.epochId);
            var t' := Step(t, p, Nothing);
            if record.None? || record.value.anchorTxid.None? then GoesOn(t', p, t.w, PrepareOrResume(job))
            else if pending.None? || pending != record.value.anchorTxid then Returned(t', p, t.w)
            else GoesOn(t', p, t.w, StoreConfirmed(pending.value, record.value.anchorBlock))
  {
    assert Step(t, p, Nothing) == StepCheckAnchored(t, p, job, pending);
  }

  lemma PrepareMove(t: State, p: Pid, job: Job, answer: Answer)
    requires t.lock == Some(p) && PcOf(t, p) == PrepareOrResume(job) && answer.Prepared?
    requires Newest(t.w.db, job.epochId).None? || Newest(t.w.db, job.epochId).value.Expired()
    ensures var ev := answer.evidence;
            var r := WithSubmission(t.w.db, job.epochId, job.netuid, job.logDigest, ev);
            var t' := Step(t, p, answer);
            if ev.submitBlock >= job.closeBlock + job.confirmationDepth || r.Failure? then Returned(t', p, t.w)
            else if ByHash(r.value, ev.txid).None? || ByHash(r.value, ev.txid).value.outcome.Some? then
              Returned(t', p, t.w.(db := r.value))
            else GoesOn(t', p, t.w.(db := r.value), RaiseFence(job, ev, true))
  {
    assert Step(t, p, answer) == StepPrepare(t, p, job, answer);
  }

  lemma ResumeMove(t: State, p: Pid, job: Job, answer: Answer)
    requires t.lock == Some(p) && PcOf(t, p) == PrepareOrResume(job)
    ensures var newest := Newest(t.w.db, job.epochId);
            var t' := Step(t, p, answer);
            if newest.None? || newest.value.Expired() then answer.Prepared? || Returned(t', p, t.w)
            else if (newest.value.outcome.Some? && newest.value.outcome.value.OperatorAcknowledged?)
                    || newest.value.netuid != job.netuid || newest.value.logDigest != job.logDigest
            then Returned(t', p, t.w)
            else GoesOn(t', p, t.w, RaiseFence(job, newest.value.evidence, false))
  {
    assert Step(t, p, answer) == StepPrepare(t, p, job, answer);
  }

  lemma RaiseMove(t: State, p: Pid, job: Job, ev: Evidence, isNew: bool)
    requires t.lock == Some(p) && PcOf(t, p) == RaiseFence(job, ev, isNew)
    ensures match WithMark(t.w.fence, Marker(ev.txid, job.epochId, job.netuid, job.logDigest, ev))
            case Failure(_) => Returned(Step(t, p, Nothing), p, t.w)
            case Success(fence) =>
              GoesOn(Step(t, p, Nothing), p, t.w.(fence := fence),
                     if isNew then Send(job, ev) else AwaitInclusion(job, ev))
  {
    assert Step(t, p, Nothing) == StepRaiseFence(t, p, job, ev, isNew);
  }

  lemma AwaitMove(t: State, p: Pid, job: Job, ev: Evidence, answer: Answer)
    requires t.lock == Some(p) && PcOf(t, p) == AwaitInclusion(job, ev)
    ensures match Verdict(t.w.chain, ev, job.confirmationDepth, answer)
            case Found(block) => GoesOn(Step(t, p, answer), p, t.w, StoreAnchor(job, ev, block))
            case NotThere(proof) => GoesOn(Step(t, p, answer), p, t.w, StoreExpiry(job, ev, proof))
            case Unknown => Returned(Step(t, p, answer), p, t.w)
  {
    assert Step(t, p, answer) == StepAwait(t, p, job, ev, answer);
  }

  lemma InclusionMove(t: State, p: Pid, job: Job, ev: Evidence, block: int)
    requires t.lock == Some(p) && PcOf(t, p) == StoreAnchor(job, ev, block)
    ensures match WithAnchor(t.w.db, job.epochId, ev.txid, Some(block))
            case Failure(_) => Returned(Step(t, p, Nothing), p, t.w)
            case Success(db) => GoesOn(Step(t, p, Nothing), p, t.w.(db := db), StoreConfirmed(ev.txid, Some(block)))
  {
    assert Step(t, p, Nothing) == StepStoreAnchor(t, p, job, ev, block);
  }

  /** The epoch carries this anchor, its row is confirmed, and nothing is pending. */
  ghost predicate AnchoredBy(index: Index, lane: Lane, e: int, row: EpochRow)
    reads index, lane
  {
    && e in index.epochs && index.epochs[e] == row && e !in index.tombstones && row.anchorTxid.Some?
    && Terminal(index.Content(), row.anchorTxid.value) && lane.fence.None?
  }

  /** The index takes this inclusion: the anchor first, then the outcome of the row. */
  predicate Anchorable(db: Db, e: int, txid: TxHash, block: int) {
    && WithAnchor(db, e, txid, Some(block)).Success?
    && WithOutcome(WithAnchor(db, e, txid, Some(block)).value, txid, Confirmed(Some(block))).Success?
  }

  function WithInclusion(db: Db, e: int, txid: TxHash, block: int): Db
    requires Anchorable(db, e, txid, block)
  {
    WithOutcome(WithAnchor(db, e, txid, Some(block)).value, txid, Confirmed(Some(block))).value
  }

  /** The proven absence is stored and the fence goes, or the index refuses it and nothing changes. */
  ghost predicate Expires(db: Db, fence: Option<Marker>, txid: TxHash, proof: AbsenceProof, later: Db,
                          laterFence: Option<Marker>) {
    var r := WithOutcome(db, txid, ExpiredAbsent(proof));
    if r.Success? then later == r.value && laterFence.None? else later == db && laterFence == fence
  }

  /** What waiting for one hash leaves behind: a finalized inclusion anchors the epoch exactly when the
      index takes it, a proven absence is stored and lowers the fence, and anything else changes nothing. */
  ghost predicate Concluded(w: World, e: int, txid: TxHash, verdict: Finding, won: bool, after: World) {
    && after.chain == w.chain
    && match verdict
       case Found(block) =>
         && (won <==> Anchorable(w.db, e, txid, block))
         && (won ==> after.db == WithInclusion(w.db, e, txid, block) && after.fence.None?)
       case NotThere(proof) => !won && Expires(w.db, w.fence, txid, proof, after.db, after.fence)
       case Unknown => !won && after == w
  }

  /** Waits for the one hash. */
  method ConfirmDispatched(index: Index, lane: Lane, net: Network, p: Pid, job: Job, ev: Evidence, answer: Answer,
                           ghost s: State, ghost t: State)
    returns (r: Result<EpochRow, AnchorError>, ghost t': State)
    requires OwnRun(s, t, p) && InLane(t, index, lane, net, p) && PcOf(t, p) == AwaitInclusion(job, ev)
    requires Admits(lane.fence, Some(ev.txid))
    modifies index, lane
    ensures OwnRun(s, t', p) && Leaving(t', index, lane, net, p)
    ensures r.Success? ==> AnchoredBy(index, lane, job.epochId, r.value) && r.value.anchorTxid == Some(ev.txid)
    ensures Concluded(old(WorldOf(index, lane, net)), job.epochId, ev.txid,
                      Verdict(net.chain, ev, job.confirmationDepth, answer), r.Success?, WorldOf(index, lane, net))
  {
    AwaitMove(t, p, job, ev, answer);
    var found := net.Confirm(ev, job.confirmationDepth, answer);
    t' := Next(s, t, p, answer);
    match found {
      case Unknown =>
        return Failure(Hold), t';
      case NotThere(proof) =>
        var finished;
        finished, t' := FinishAndLower(index, lane, net, p, ev.txid, ExpiredAbsent(proof), s, t');
        return Failure(if finished.Success? then Hold else finished.error), t';
      case Found(block) =>
        r, t' := StoreInclusion(index, lane, net, p, job, ev, block, s, t');
    }
  }

  method StoreInclusion(index: Index, lane: Lane, net: Network, p: Pid, job: Job, ev: Evidence, block: int,
                        ghost s: State, ghost t: State)
    returns (r: Result<EpochRow, AnchorError>, ghost t': State)
    requires OwnRun(s, t, p) && InLane(t, index, lane, net, p) && PcOf(t, p) == StoreAnchor(job, ev, block)
    requires Admits(lane.fence, Some(ev.txid))
    modifies index, lane
    ensures OwnRun(s, t', p) && Leaving(t', index, lane, net, p)
    ensures r.Success? ==> AnchoredBy(index, lane, job.epochId, r.value) && r.value.anchorTxid == Some(ev.txid)
    ensures r.Success? <==> Anchorable(old(index.Content()), job.epochId, ev.txid, block)
    ensures r.Success? ==> index.Content() == WithInclusion(old(index.Content()), job.epochId, ev.txid, block)
  {
    InclusionMove(t, p, job, ev, block);
    r := index.SetAnchor(job.epochId, ev.txid, Some(block));
    t' := Next(s, t, p, Nothing);
    if r.Failure? {
      return;
    }
    ghost var db := index.Content();
    var finished;
    finished, t' := FinishAndLower(index, lane, net, p, ev.txid, Confirmed(Some(block)), s, t');
    if finished.Failure? {
      return Failure(finished.error), t';
    }
    OutcomeMakesTerminal(db, ev.txid, Confirmed(Some(block)));
  }

  /** A recorded hash may be waited for again: nothing is known of it yet, or it was confirmed, and it
      was signed for this very job. */
  predicate Resumable(row: Submission, job: Job) {
    && !(row.outcome.Some? && row.outcome.value.OperatorAcknowledged?)
    && row.netuid == job.netuid && row.logDigest == job.logDigest
  }

  /** Freshly signed evidence is in time, the index takes it, and its row is an open one. */
  predicate Preparable(db: Db, job: Job, prepared: Answer) {
    && prepared.Prepared? && prepared.evidence.submitBlock < job.closeBlock + job.confirmationDepth
    && var r := WithSubmission(db, job.epochId, job.netuid, job.logDigest, prepared.evidence);
    && r.Success?
    && var row := ByHash(r.value, prepared.evidence.txid);
    row.Some? && row.value.outcome.None?
  }

  function Recorded(db: Db, job: Job, prepared: Answer): Db
    requires Preparable(db, job, prepared)
  {
    WithSubmission(db, job.epochId, job.netuid, job.logDigest, prepared.evidence).value
  }

  /** The evidence to go on with, and whether it was signed just now. A resumed hash was recorded
      before; a fresh one is recorded here, before anything is sent. */
  method PrepareOrReuse(index: Index, lane: Lane, net: Network, p: Pid, job: Job, prepared: Answer,
                        ghost s: State, ghost t: State)
    returns (r: Result<(Evidence, bool), AnchorError>, ghost t': State)
    requires OwnRun(s, t, p) && InLane(t, index, lane, net, p) && PcOf(t, p) == PrepareOrResume(job)
    modifies index
    ensures OwnRun(s, t', p)
    ensures r.Failure? ==> Leaving(t', index, lane, net, p)
    ensures r.Success? ==> InLane(t', index, lane, net, p) && PcOf(t', p) == RaiseFence(job, r.value.0, r.value.1)
    ensures r.Success? ==>
              var newest := Newest(old(index.Content()), job.epochId);
              && (r.value.1 <==> newest.None? || newest.value.Expired())
              && (r.value.1 ==> prepared.Prepared? && prepared.evidence == r.value.0
                                && r.value.0.submitBlock < job.closeBlock + job.confirmationDepth
                                && ByHash(index.Content(), r.value.0.txid).Some?)
              && (!r.value.1 ==> newest.value.evidence == r.value.0 && index.Content() == old(index.Content()))
              && (r.value.1 ==> Preparable(old(index.Content()), job, prepared)
                                && index.Content() == Recorded(old(index.Content()), job, prepared))
    ensures r.Success? <==>
              var db := old(index.Content());
              var newest := Newest(db, job.epochId);
              if newest.None? || newest.value.Expired() then Preparable(db, job, prepared)
                else Resumable(newest.value, job)
  {
    var newest := Newest(index.Content(), job.epochId);
    ResumeMove(t, p, job, prepared);
    if newest.Some? && newest.value.outcome.Some? && newest.value.outcome.value.OperatorAcknowledged? {
      t' := Next(s, t, p, prepared);
      return Failure(Hold), t';
    }
    if newest.None? || newest.value.Expired() {
      r, t' := PrepareFresh(index, lane, net, p, job, prepared, s, t);
      return;
    }
    t' := Next(s, t, p, prepared);
    if newest.value.netuid != job.netuid || newest.value.logDigest != job.logDigest {
      return Failure(Hold), t';
    }
    r := Success((newest.value.evidence, false));
  }

  method PrepareFresh(index: Index, lane: Lane, net: Network, p: Pid, job: Job, prepared: Answer,
                      ghost s: State, ghost t: State)
    returns (r: Result<(Evidence, bool), AnchorError>, ghost t': State)
    requires OwnRun(s, t, p) && InLane(t, index, lane, net, p) && PcOf(t, p) == PrepareOrResume(job)
    requires Newest(index.Content(), job.epochId).None? || Newest(index.Content(), job.epochId).value.Expired()
    modifies index
    ensures OwnRun(s, t', p)
    ensures r.Failure? ==> Leaving(t', index, lane, net, p)
    ensures r.Success? ==> InLane(t', index, lane, net, p) && PcOf(t', p) == RaiseFence(job, r.value.0, r.value.1)
    ensures r.Success? ==> r.value.1 && prepared.Prepared? && prepared.evidence == r.value.0
                           && r.value.0.submitBlock < job.closeBlock + job.confirmationDepth
                           && ByHash(index.Content(), r.value.0.txid).Some?
    ensures r.Success? <==> Preparable(old(index.Content()), job, prepared)
    ensures r.Success? ==> index.Content() == Recorded(old(index.Content()), job, prepared)
  {
    ResumeMove(t, p, job, prepared);
    if prepared.Prepared? { PrepareMove(t, p, job, prepared); }
    t' := Next(s, t, p, prepared);
    if !prepared.Prepared? || prepared.evidence.submitBlock >= job.closeBlock + job.confirmationDepth {
      return Failure(Hold), t';
    }
    var recorded := index.RecordAnchorSubmission(job.epochId, job.netuid, job.logDigest, prepared.evidence);
    if recorded.Failure? {
      return Failure(recorded.error), t';
    }
    if recorded.value.outcome.Some? {
      return Failure(Hold), t';
    }
    r := Success((prepared.evidence, true));
  }

  /** At most one dispatch per call, none at all for a hash that was recorded earlier. */
  ghost predicate SentAtMost(before: Chain, after: Chain, journal: Db, job: Job, prepared: Answer) {
    after == before ||
    (&& prepared.Prepared? && after == before.(sent := before.sent + [prepared.evidence])
     && prepared.evidence.submitBlock < job.closeBlock + job.confirmationDepth
     && (Newest(journal, job.epochId).None? || Newest(journal, job.epochId).value.Expired()))
  }

  /** The recorded hash of the epoch is waited for, was included, and the index takes it. */
  predicate Resumes(db: Db, fence: Option<Marker>, chain: Chain, job: Job, found: Answer) {
    var newest := Newest(db, job.epochId);
    && newest.Some? && !newest.value.Expired() && Resumable(newest.value, job)
    && var ev := newest.value.evidence;
    var verdict := Verdict(chain, ev, job.confirmationDepth, found);
    Admits(fence, Some(ev.txid)) && verdict.Found? && Anchorable(db, job.epochId, ev.txid, verdict.block)
  }

  /** The recorded hash is the one to wait for, and no other is fenced. */
  predicate ResumesRow(w: World, job: Job) {
    var newest := Newest(w.db, job.epochId);
    && newest.Some? && !newest.value.Expired() && Resumable(newest.value, job)
    && Admits(w.fence, Some(newest.value.evidence.txid))
  }

  /** It is fenced and waited for without a dispatch. */
  ghost predicate ResumeEnds(w: World, job: Job, found: Answer, won: bool, after: World) {
    ResumesRow(w, job) ==>
      var ev := Newest(w.db, job.epochId).value.evidence;
      Concluded(Awaited(w, job, ev, false), job.epochId, ev.txid, Verdict(w.chain, ev, job.confirmationDepth, found),
                won, after)
  }

  function Resumed(db: Db, fence: Option<Marker>, chain: Chain, job: Job, found: Answer): Db
    requires Resumes(db, fence, chain, job, found)
  {
    var ev := Newest(db, job.epochId).value.evidence;
    WithInclusion(db, job.epochId, ev.txid, Verdict(chain, ev, job.confirmationDepth, found).block)
  }

  function MarkerOf(job: Job, ev: Evidence): Marker { Marker(ev.txid, job.epochId, job.netuid, job.logDigest, ev) }

  /** The world while the hash is waited for: its fence is up, and a new one was sent. */
  function Awaited(w: World, job: Job, ev: Evidence, isNew: bool): World {
    World(w.db, if w.fence.Some? then w.fence else Some(MarkerOf(job, ev)),
          if isNew then w.chain.(sent := w.chain.sent + [ev]) else w.chain)
  }

  /** Nothing of the epoch is open, the new evidence can be recorded, and no other hash is fenced. */
  predicate Fresh(w: World, job: Job, prepared: Answer) {
    && (Newest(w.db, job.epochId).None? || Newest(w.db, job.epochId).value.Expired())
    && Preparable(w.db, job, prepared) && Admits(w.fence, Some(prepared.evidence.txid))
  }

  /** The new evidence was recorded, fenced, sent once and waited for. */
  ghost predicate FreshEnds(w: World, job: Job, prepared: Answer, found: Answer, won: bool, after: World)
    requires Preparable(w.db, job, prepared)
  {
    var ev := prepared.evidence;
    var sent := Awaited(w.(db := Recorded(w.db, job, prepared)), job, ev, true);
    Concluded(sent, job.epochId, ev.txid, Verdict(sent.chain, ev, job.confirmationDepth, found), won, after)
  }

  /** The fence goes up before the dispatch; a hash that was not signed just now is not sent again. */
  method RaiseAndSend(index: Index, lane: Lane, net: Network, p: Pid, job: Job, ev: Evidence, isNew: bool,
                      ghost s: State, ghost t: State)
    returns (r: Result<(), AnchorError>, ghost t': State)
    requires OwnRun(s, t, p) && InLane(t, index, lane, net, p) && PcOf(t, p) == RaiseFence(job, ev, isNew)
    modifies lane, net
    ensures OwnRun(s, t', p)
    ensures r.Success? <==> Admits(old(lane.fence), Some(ev.txid))
    ensures r.Failure? ==> Leaving(t', index, lane, net, p)
    ensures r.Success? ==> InLane(t', index, lane, net, p) && PcOf(t', p) == AwaitInclusion(job, ev)
                           && Admits(lane.fence, Some(ev.txid))
    ensures WorldOf(index, lane, net) ==
            if r.Success? then Awaited(old(WorldOf(index, lane, net)), job, ev, isNew)
            else old(WorldOf(index, lane, net))
  {
    r, t' := Raise(index, lane, net, p, job, ev, isNew, s, t);
    if r.Success? && isNew {
      t' := SendNew(index, lane, net, p, job, ev, s, t');
    }
  }

  method Raise(index: Index, lane: Lane, net: Network, p: Pid, job: Job, ev: Evidence, isNew: bool, ghost s: State,
               ghost t: State)
    returns (r: Result<(), AnchorError>, ghost t': State)
    requires OwnRun(s, t, p) && InLane(t, index, lane, net, p) && PcOf(t, p) == RaiseFence(job, ev, isNew)
    modifies lane`fence
    ensures OwnRun(s, t', p) && (r.Success? <==> Admits(old(lane.fence), Some(ev.txid)))
    ensures r.Failure? ==> Leaving(t', index, lane, net, p) && lane.fence == old(lane.fence)
    ensures r.Success? ==> InLane(t', index, lane, net, p) && Admits(lane.fence, Some(ev.txid))
                           && PcOf(t', p) == if isNew then Send(job, ev) else AwaitInclusion(job, ev)
    ensures r.Success? ==> lane.fence == if old(lane.fence).Some? then old(lane.fence) else Some(MarkerOf(job, ev))
  {
    RaiseMove(t, p, job, ev, isNew);
    r := lane.Mark(p, MarkerOf(job, ev));
    t' := Next(s, t, p, Nothing);
  }

  method SendNew(index: Index, lane: Lane, net: Network, p: Pid, job: Job, ev: Evidence, ghost s: State,
                 ghost t: State)
    returns (ghost t': State)
    requires OwnRun(s, t, p) && InLane(t, index, lane, net, p) && PcOf(t, p) == Send(job, ev)
    modifies net
    ensures OwnRun(s, t', p) && InLane(t', index, lane, net, p) && PcOf(t', p) == AwaitInclusion(job, ev)
    ensures net.chain == old(net.chain).(sent := old(net.chain).sent + [ev])
  {
    SendMove(t, p, job, ev);
    net.Submit(ev);
    t' := Next(s, t, p, Nothing);
  }

  lemma SendMove(t: State, p: Pid, job: Job, ev: Evidence)
    requires t.lock == Some(p) && PcOf(t, p) == Send(job, ev)
    ensures GoesOn(Step(t, p, Nothing), p, t.w.(chain := t.w.chain.(sent := t.w.chain.sent + [ev])),
                   AwaitInclusion(job, ev))
  {}

  /** `_anchor_with_durable_submission`: journal, fence, dispatch, confirm. */
  method AnchorWithDurableSubmission(index: Index, lane: Lane, net: Network, p: Pid, job: Job,
                                     prepared: Answer, found: Answer, ghost s: State, ghost t: State)
    returns (r: Result<EpochRow, AnchorError>, ghost t': State)
    requires OwnRun(s, t, p) && InLane(t, index, lane, net, p) && PcOf(t, p) == PrepareOrResume(job)
    modifies index, lane, net
    ensures OwnRun(s, t', p) && Leaving(t', index, lane, net, p)
    ensures r.Success? ==> AnchoredBy(index, lane, job.epochId, r.value)
    ensures SentAtMost(old(net.chain), net.chain, old(index.Content()), job, prepared)
    ensures ResumeEnds(old(WorldOf(index, lane, net)), job, found, r.Success?, WorldOf(index, lane, net))
    ensures Fresh(old(WorldOf(index, lane, net)), job, prepared) ==>
              FreshEnds(old(WorldOf(index, lane, net)), job, prepared, found, r.Success?, WorldOf(index, lane, net))
  {
    var chosen;
    chosen, t' := PrepareOrReuse(index, lane, net, p, job, prepared, s, t);
    if chosen.Failure? {
      return Failure(chosen.error), t';
    }
    var (ev, isNew) := chosen.value;
    r, t' := RaiseAndConfirm(index, lane, net, p, job, ev, isNew, found, s, t');
  }

  /** From the fence on: raise it, send a new hash, wait for the inclusion. */
  method RaiseAndConfirm(index: Index, lane: Lane, net: Network, p: Pid, job: Job, ev: Evidence, isNew: bool,
                         found: Answer, ghost s: State, ghost t: State)
    returns (r: Result<EpochRow, AnchorError>, ghost t': State)
    requires OwnRun(s, t, p) && InLane(t, index, lane, net, p) && PcOf(t, p) == RaiseFence(job, ev, isNew)
    modifies index, lane, net
    ensures OwnRun(s, t', p) && Leaving(t', index, lane, net, p)
    ensures r.Success? ==> AnchoredBy(index, lane, job.epochId, r.value) && r.value.anchorTxid == Some(ev.txid)
    ensures Admits(old(lane.fence), Some(ev.txid)) ==>
              var w := Awaited(old(WorldOf(index, lane, net)), job, ev, isNew);
              Concluded(w, job.epochId, ev.txid, Verdict(w.chain, ev, job.confirmationDepth, found), r.Success?,
                        WorldOf(index, lane, net))
    ensures !Admits(old(lane.fence), Some(ev.txid)) ==>
              r.Failure? && WorldOf(index, lane, net) == old(WorldOf(index, lane, net))
  {
    var raised;
    raised, t' := RaiseAndSend(index, lane, net, p, job, ev, isNew, s, t);
    if raised.Failure? {
      return Failure(raised.error), t';
    }
    r, t' := ConfirmDispatched(index, lane, net, p, job, ev, found, s, t');
  }

  /** An epoch that is anchored already keeps its row, and its hash is confirmed if it may be. */
  ghost predicate InsideKeeps(w: World, e: int, pending: Option<TxHash>, r: Result<EpochRow, AnchorError>, after: World)
    requires HasAnchor(w, e)
  {
    var row := w.db.epochs[e];
    && after.chain == w.chain && after.db.epochs == w.db.epochs
    && (r.Success? ==> r.value == row)
    && (r.Success? && pending.Some? ==> WithOutcome(w.db, pending.value, Confirmed(row.anchorBlock)).Success?)
    && (pending == row.anchorTxid && WithOutcome(w.db, pending.value, Confirmed(row.anchorBlock)).Success? ==>
          r.Success?)
  }

  /** What the call inside the lane leaves behind: a kept anchor, a resumed or a fresh submission. */
  ghost predicate Inside(w: World, job: Job, pending: Option<TxHash>, prepared: Answer, found: Answer,
                         r: Result<EpochRow, AnchorError>, after: World)
  {
    && SentAtMost(w.chain, after.chain, w.db, job, prepared)
    && (HasAnchor(w, job.epochId) && job.epochId !in w.db.tombstones ==>
          InsideKeeps(w, job.epochId, pending, r, after))
    && (Unanchored(w.db, job.epochId) ==> ResumeEnds(w, job, found, r.Success?, after))
    && (Unanchored(w.db, job.epochId) && Fresh(w, job, prepared) ==>
          FreshEnds(w, job, prepared, found, r.Success?, after))
  }

  /** The epoch is served with an anchor: its row is confirmed and the fence goes. */
  method KeepAnchor(index: Index, lane: Lane, net: Network, p: Pid, job: Job, pending: Option<TxHash>,
                    ghost s: State, ghost t: State)
    returns (r: Result<EpochRow, AnchorError>, ghost t': State)
    requires OwnRun(s, t, p) && InLane(t, index, lane, net, p) && PcOf(t, p) == CheckAnchored(job, pending)
    requires Admits(lane.fence, pending) && HasAnchor(t.w, job.epochId) && job.epochId !in index.tombstones
    modifies index, lane
    ensures OwnRun(s, t', p) && Leaving(t', index, lane, net, p)
    ensures r.Success? && pending.Some? ==> AnchoredBy(index, lane, job.epochId, r.value)
    ensures InsideKeeps(t.w, job.epochId, pending, r, WorldOf(index, lane, net))
  {
    CheckAnchoredMove(t, p, job, pending);
    var record := index.epochs[job.epochId];
    t' := Next(s, t, p, Nothing);
    if pending.None? {
      return Success(record), t';
    }
    if pending != record.anchorTxid {
      return Failure(Hold), t';
    }
    var finished;
    finished, t' := FinishAndLower(index, lane, net, p, pending.value, Confirmed(record.anchorBlock), s, t');
    if finished.Failure? {
      return Failure(finished.error), t';
    }
    OutcomeMakesTerminal(t.w.db, pending.value, Confirmed(record.anchorBlock));
    return Success(record), t';
  }

  /** The part of `anchor_epoch` inside the lane, from the re-check of the epoch row on. */
  method AnchorInLane(index: Index, lane: Lane, net: Network, p: Pid, job: Job, pending: Option<TxHash>,
                      prepared: Answer, found: Answer, ghost s: State, ghost t: State)
    returns (r: Result<EpochRow, AnchorError>, ghost t': State)
    requires OwnRun(s, t, p) && InLane(t, index, lane, net, p) && PcOf(t, p) == CheckAnchored(job, pending)
    requires Admits(lane.fence, pending)
    modifies index, lane, net
    ensures OwnRun(s, t', p) && Leaving(t', index, lane, net, p)
    ensures r.Success? && (pending.Some? || Unanchored(old(index.Content()), job.epochId)) ==>
              AnchoredBy(index, lane, job.epochId, r.value)
    ensures Inside(old(WorldOf(index, lane, net)), job, pending, prepared, found, r, WorldOf(index, lane, net))
  {
    var record := Get(index.Content(), job.epochId);
    if record.Some? && record.value.anchorTxid.Some? {
      r, t' := KeepAnchor(index, lane, net, p, job, pending, s, t);
      KeptIsInside(t.w, job, pending, prepared, found, r, WorldOf(index, lane, net));
      return;
    }
    CheckAnchoredMove(t, p, job, pending);
    t' := Next(s, t, p, Nothing);
    r, t' := AnchorWithDurableSubmission(index, lane, net, p, job, prepared, found, s, t');
    SubmittedIsInside(t.w, job, pending, prepared, found, r, WorldOf(index, lane, net));
  }

  lemma KeptIsInside(w: World, job: Job, pending: Option<TxHash>, prepared: Answer, found: Answer,
                     r: Result<EpochRow, AnchorError>, after: World)
    requires HasAnchor(w, job.epochId) && InsideKeeps(w, job.epochId, pending, r, after)
    ensures Inside(w, job, pending, prepared, found, r, after)
  {}

  lemma SubmittedIsInside(w: World, job: Job, pending: Option<TxHash>, prepared: Answer, found: Answer,
                          r: Result<EpochRow, AnchorError>, after: World)
    requires HasAnchor(w, job.epochId) ==> job.epochId in w.db.tombstones
    requires SentAtMost(w.chain, after.chain, w.db, job, prepared) && ResumeEnds(w, job, found, r.Success?, after)
    requires Fresh(w, job, prepared) ==> FreshEnds(w, job, prepared, found, r.Success?, after)
    ensures Inside(w, job, pending, prepared, found, r, after)
  {}

  /** A fence whose row is over goes, any other stays. */
  function RestoredFence(db: Db, fence: Option<Marker>, m: Marker): Option<Marker> {
    var row := ByHash(db, m.txid);
    if row.Some? && row.value.outcome.Some? && !row.value.outcome.value.Confirmed? then None else fence
  }

  /** The fence of this very epoch: its row comes back, and a row that is over lowers the fence. */
  method RestoreInLane(index: Index, lane: Lane, net: Network, p: Pid, job: Job, m: Marker, ghost s: State,
                       ghost t: State)
    returns (r: Result<(), AnchorError>, ghost t': State)
    requires OwnRun(s, t, p) && InLane(t, index, lane, net, p) && PcOf(t, p) == RestoreForAnchor(job, m)
    requires Admits(lane.fence, Some(m.txid))
    modifies index, lane
    ensures OwnRun(s, t', p) && Admits(lane.fence, Some(m.txid))
    ensures r.Failure? ==> Leaving(t', index, lane, net, p)
    ensures r.Success? ==> InLane(t', index, lane, net, p) && PcOf(t', p) == CheckAnchored(job, Some(m.txid))
    ensures match Restored(old(index.Content()), m)
            case Success(db) => index.Content() == db && r.Success? &&
              lane.fence == RestoredFence(db, old(lane.fence), m)
            case Failure(_) => index.Content() == old(index.Content()) && r.Failure?
  {
    RestoreMove(t, p, job, m);
    var restored := RestoreMarkerSubmission(index, m);
    t' := Next(s, t, p, Nothing);
    if restored.Failure? {
      return Failure(restored.error), t';
    }
    r := Success(());
    if restored.value.outcome.Some? && !restored.value.outcome.value.Confirmed? {
      t' := DropStale(index, lane, net, p, job, m.txid, s, t');
    }
  }

  method DropStale(index: Index, lane: Lane, net: Network, p: Pid, job: Job, txid: TxHash, ghost s: State,
                   ghost t: State)
    returns (ghost t': State)
    requires OwnRun(s, t, p) && InLane(t, index, lane, net, p) && PcOf(t, p) == DropStaleFence(job, txid)
    requires Admits(lane.fence, Some(txid))
    modifies lane
    ensures OwnRun(s, t', p) && InLane(t', index, lane, net, p) && PcOf(t', p) == CheckAnchored(job, Some(txid))
    ensures lane.fence.None?
  {
    DropStaleMove(t, p, job, txid);
    var cleared := lane.Clear(p, txid);
    assert cleared.Success?;
    t' := Next(s, t, p, Nothing);
  }

  /** What `anchor_epoch` reads before it asks for the lane: the hash it has pending, and the fence
      if it is its own. */
  function PendingOf(w: World, job: Job): Option<TxHash> {
    var newest := Newest(w.db, job.epochId);
    if newest.Some? then Some(newest.value.evidence.txid) else None
  }

  function OwnFence(w: World, job: Job): Option<Marker> {
    if w.fence.Some? && w.fence.value.epochId == job.epochId then w.fence else None
  }

  function Wanted(w: World, job: Job): Option<TxHash> {
    if OwnFence(w, job).Some? then Some(OwnFence(w, job).value.txid) else PendingOf(w, job)
  }

  function FirstInside(w: World, job: Job): Pc {
    if OwnFence(w, job).Some? then RestoreForAnchor(job, OwnFence(w, job).value)
      else CheckAnchored(job, PendingOf(w, job))
  }

  function Peeked(w: World, job: Job): Pc { EnterToAnchor(job, PendingOf(w, job), OwnFence(w, job)) }

  lemma PeekMoves(s: State, p: Pid, job: Job)
    requires PcOf(s, p).Idle? && s.lock != Some(p)
    ensures OwnRun(s, Goto(s, p, Peeked(s.w, job)), p)
  {
    var s1, s2 := Goto(s, p, PeekJournal(job)), Goto(s, p, PeekFence(job, PendingOf(s.w, job)));
    OwnStart(s, p);
    OwnStep(s, s, p, Start(p, PeekJournal(job)));
    OwnStep(s, s1, p, Act(p, Nothing));
    GotoTwice(s, p, PeekJournal(job), PeekFence(job, PendingOf(s.w, job)));
    OwnStep(s, s2, p, Act(p, Nothing));
    GotoTwice(s, p, PeekFence(job, PendingOf(s.w, job)), Peeked(s.w, job));
  }

  lemma PeekedEnters(s: State, p: Pid, job: Job)
    ensures var t := Goto(s, p, Peeked(s.w, job));
            PcOf(t, p) == Peeked(s.w, job) &&
              Step(t, p, Nothing) == Enter(t, p, Wanted(s.w, job), FirstInside(s.w, job))
  {}

  lemma ConfirmsUnlessAcknowledged(w: World, e: int)
    requires Core(w) && HasAnchor(w, e)
    ensures var h := w.db.epochs[e].anchorTxid.value;
            WithOutcome(w.db, h, Confirmed(w.db.epochs[e].anchorBlock)).Success? <==> !Acknowledged(w.db, h)
    ensures Newest(w.db, e).Some? && Some(Newest(w.db, e).value.evidence.txid) == w.db.epochs[e].anchorTxid
    ensures w.fence.Some? && w.fence.value.epochId == e ==> Some(w.fence.value.txid) == w.db.epochs[e].anchorTxid
    ensures w.fence.Some? && w.fence.value.epochId != e ==> !Admits(w.fence, w.db.epochs[e].anchorTxid)
  {
    AnchoredHashConfirms(w, e);
    AnchorIsNewest(w, e);
    assert AnchorOk(w, e);
    if w.fence.Some? && w.fence.value.epochId != e { ForeignFenceNamesAnother(w, e); }
  }

  /** An epoch that has an anchor already keeps it without a chain write; the call returns that
      anchor exactly when the lane is free for it and the anchor's row was not acknowledged away. */
  ghost predicate KeepsAnchor(before: World, free: bool, after: World, e: int, r: Result<EpochRow, AnchorError>) {
    HasAnchor(before, e) ==>
      var row := before.db.epochs[e];
      && after.chain == before.chain && after.db.epochs == before.db.epochs
      && (r.Success? ==> r.value == row)
      && (r.Success? <==> && free && (before.fence.None? || before.fence.value.epochId == e)
                          && !Acknowledged(before.db, row.anchorTxid.value))
  }

  ghost function WorldOf(index: Index, lane: Lane, net: Network): World
    reads index, lane, net
  {
    World(index.Content(), lane.fence, net.chain)
  }

  /** The fence once the own marker was looked at. */
  function FenceInside(w: World, marker: Option<Marker>): Option<Marker> {
    if marker.None? then w.fence else RestoredFence(w.db, w.fence, marker.value)
  }

  /** The body of `anchor_epoch` once it has the lane: the own fence first, then the epoch row. */
  method AnchorHeld(index: Index, lane: Lane, net: Network, p: Pid, job: Job, marker: Option<Marker>,
                    pending: Option<TxHash>, prepared: Answer, found: Answer, ghost s: State, ghost t: State)
    returns (r: Result<EpochRow, AnchorError>, ghost t': State)
    requires OwnRun(s, t, p) && InLane(t, index, lane, net, p) && Core(t.w) && Admits(lane.fence, pending)
    requires if marker.None? then PcOf(t, p) == CheckAnchored(job, pending)
             else PcOf(t, p) == RestoreForAnchor(job, marker.value) && pending == Some(marker.value.txid)
                  && Backed(t.w.db, marker.value)
    requires HasAnchor(t.w, job.epochId) ==> pending == t.w.db.epochs[job.epochId].anchorTxid
    modifies index, lane, net
    ensures OwnRun(s, t', p) && Leaving(t', index, lane, net, p)
    ensures r.Success? ==> AnchoredBy(index, lane, job.epochId, r.value)
    ensures SentAtMost(old(net.chain), net.chain, old(index.Content()), job, prepared)
    ensures HasAnchor(t.w, job.epochId) ==> HeldKeeps(t.w, job.epochId, r, WorldOf(index, lane, net))
    ensures marker == OwnFence(t.w, job) ==>
              HeldAnchors(t.w, job, prepared, found, r.Success?, WorldOf(index, lane, net))
  {
    t' := t;
    if marker.Some? {
      RestoredIsNoOp(index.Content(), marker.value);
      var restored;
      restored, t' := RestoreInLane(index, lane, net, p, job, marker.value, s, t);
    }
    ghost var w := t.w.(fence := FenceInside(t.w, marker));
    assert w == WorldOf(index, lane, net);
    r, t' := AnchorInLane(index, lane, net, p, job, pending, prepared, found, s, t');
    InsideIsHeld(t.w, job, marker, pending, prepared, found, r, WorldOf(index, lane, net));
  }

  ghost predicate HeldKeeps(w: World, e: int, r: Result<EpochRow, AnchorError>, after: World)
    requires HasAnchor(w, e)
  {
    && after.chain == w.chain && after.db.epochs == w.db.epochs
    && (r.Success? ==> r.value == w.db.epochs[e])
    && (r.Success? <==> !Acknowledged(w.db, w.db.epochs[e].anchorTxid.value))
  }

  ghost predicate HeldAnchors(w: World, job: Job, prepared: Answer, found: Answer, won: bool, after: World) {
    && (OpenOutside(w, job) ==> Resumption(w, job, found, won, after))
    && (FreshOutside(w, job, prepared) ==> Dispatched(w, job, prepared, found, won, after))
  }

  /** The look at the own fence changes none of the three outcomes. */
  lemma InsideIsHeld(w: World, job: Job, marker: Option<Marker>, pending: Option<TxHash>, prepared: Answer,
                     found: Answer, r: Result<EpochRow, AnchorError>, after: World)
    requires Core(w) && (HasAnchor(w, job.epochId) ==> pending == w.db.epochs[job.epochId].anchorTxid)
    requires Inside(w.(fence := FenceInside(w, marker)), job, pending, prepared, found, r, after)
    ensures HasAnchor(w, job.epochId) ==> HeldKeeps(w, job.epochId, r, after)
    ensures marker == OwnFence(w, job) ==> HeldAnchors(w, job, prepared, found, r.Success?, after)
  {
    if HasAnchor(w, job.epochId) {
      ConfirmsUnlessAcknowledged(w, job.epochId);
      AnchoredIsServed(w, job.epochId);
    }
    if marker == OwnFence(w, job) && OpenOutside(w, job) {
      OwnFenceAdmitsNewest(w, job);
      OpenRowResumes(w, job, FenceInside(w, marker), found, r.Success?, after);
    }
    if marker == OwnFence(w, job) && FreshOutside(w, job, prepared) {
      FreshInside(w, job, prepared);
      FreshIsPreparable(w, job, prepared);
      FreshDispatches(w, job, prepared, found, r.Success?, after);
    }
  }

  lemma AnchoredIsServed(w: World, e: int)
    requires Core(w) && HasAnchor(w, e)
    ensures e !in w.db.tombstones
  {
    AnchorIsNewest(w, e);
  }

  /** Which hash the caller comes for, read before the lane is asked for. */
  method EnterForEpoch(index: Index, lane: Lane, net: Network, p: Pid, job: Job, ghost s: State)
    returns (r: Result<(), AnchorError>, marker: Option<Marker>, wanted: Option<TxHash>, ghost t: State)
    requires Outside(s, index, lane, net, p) && lane.holder != Some(p)
    modifies lane`holder
    ensures OwnRun(s, t, p) && t.w == s.w && marker == OwnFence(s.w, job) && wanted == Wanted(s.w, job)
    ensures r.Failure? ==> Outside(t, index, lane, net, p) && lane.holder == old(lane.holder)
                           && (r.error.LaneTimeout? <==> old(lane.holder).Some?)
    ensures r.Success? ==> InLane(t, index, lane, net, p) && PcOf(t, p) == FirstInside(s.w, job)
    ensures r.Success? <==> old(lane.holder).None? && Admits(s.w.fence, Wanted(s.w, job))
  {
    var newest := Newest(index.Content(), job.epochId);
    var pending := if newest.Some? then Some(newest.value.evidence.txid) else None;
    marker := if lane.fence.Some? && lane.fence.value.epochId == job.epochId then lane.fence else None;
    wanted := if marker.Some? then Some(marker.value.txid) else pending;
    PeekMoves(s, p, job);
    PeekedEnters(s, p, job);
    t := Goto(s, p, Peeked(s.w, job));
    r, t := EnterLane(index, lane, net, p, wanted, FirstInside(s.w, job), s, t);
  }

  /** What the invariant says about what the caller found. */
  lemma PeekedIsBacked(w: World, job: Job)
    requires Core(w)
    ensures OwnFence(w, job).Some? ==> Backed(w.db, OwnFence(w, job).value)
    ensures HasAnchor(w, job.epochId) ==>
              && Wanted(w, job) == w.db.epochs[job.epochId].anchorTxid
              && (Admits(w.fence, Wanted(w, job)) <==> w.fence.None? || w.fence.value.epochId == job.epochId)
  {
    if HasAnchor(w, job.epochId) { ConfirmsUnlessAcknowledged(w, job.epochId); }
  }

  /** A served epoch without an anchor whose newest row is open and was signed for this job; and no other
      epoch has the fence. */
  predicate OpenOutside(w: World, job: Job) {
    var record, newest := Get(w.db, job.epochId), Newest(w.db, job.epochId);
    && record.Some? && record.value.anchorTxid.None?
    && newest.Some? && newest.value.outcome.None?
    && newest.value.netuid == job.netuid && newest.value.logDigest == job.logDigest
    && (w.fence.None? || w.fence.value.epochId == job.epochId)
  }

  /** And it was included by what the node says. */
  predicate ResumesOutside(w: World, job: Job, found: Answer) {
    && OpenOutside(w, job)
    && Verdict(w.chain, Newest(w.db, job.epochId).value.evidence, job.confirmationDepth, found).Found?
  }

  /** What a resumed call leaves behind. Nothing is sent; an inclusion completes the anchor, a proven
      absence of a mortal transaction closes the row and frees the lane, and without an answer the row
      stays open behind its fence. */
  ghost predicate Resumption(w: World, job: Job, found: Answer, won: bool, after: World)
    requires OpenOutside(w, job)
  {
    var at, row := NewestOf(w.db.journal, job.epochId), Newest(w.db, job.epochId).value;
    && after.chain == w.chain
    && match Verdict(w.chain, row.evidence, job.confirmationDepth, found)
       case Found(_) => won && Completed(w, job, found, after)
       case NotThere(proof) =>
         && !won
         && (0 < proof.mortalEra ==>
               && after.db == w.db.(journal := w.db.journal[at := row.(outcome := Some(ExpiredAbsent(proof)))])
               && after.fence.None?)
         && (proof.mortalEra <= 0 ==> after.db == w.db && FenceNames(after.fence, row.evidence.txid))
       case Unknown => !won && after.db == w.db && FenceNames(after.fence, row.evidence.txid)
  }

  lemma OpenRowResumes(w: World, job: Job, fence: Option<Marker>, found: Answer, won: bool, after: World)
    requires Core(w) && OpenOutside(w, job) && Admits(fence, Some(Newest(w.db, job.epochId).value.evidence.txid))
    requires ResumeEnds(w.(fence := fence), job, found, won, after)
    ensures Resumption(w, job, found, won, after)
  {
    var at, row := NewestOf(w.db.journal, job.epochId), Newest(w.db, job.epochId).value;
    match Verdict(w.chain, row.evidence, job.confirmationDepth, found)
    case Found(block) => OpenRowIsAnchorable(w, job.epochId, block);
    case NotThere(proof) => OutcomeIsTaken(w.db, at, ExpiredAbsent(proof));
    case Unknown =>
  }

  /** The epoch is anchored with that hash at that block, its row is confirmed, and the fence is gone. */
  ghost predicate Completed(w: World, job: Job, found: Answer, after: World)
    requires ResumesOutside(w, job, found)
  {
    var e, row := job.epochId, Newest(w.db, job.epochId).value;
    var block := Verdict(w.chain, row.evidence, job.confirmationDepth, found).block;
    && after.chain == w.chain && after.fence.None? && after.db.tombstones == w.db.tombstones
    && after.db.epochs == w.db.epochs[e := EpochRow(w.db.epochs[e].pointer, Some(row.evidence.txid), Some(block))]
    && ByHash(after.db, row.evidence.txid) == Some(row.(outcome := Some(Confirmed(Some(block)))))
  }

  lemma NewestIsItsRow(w: World, e: int)
    requires JournalOk(w.db) && Newest(w.db, e).Some?
    ensures RowOf(w.db.journal, Newest(w.db, e).value.evidence.txid) == NewestOf(w.db.journal, e)
    ensures ByHash(w.db, Newest(w.db, e).value.evidence.txid) == Newest(w.db, e)
  {}

  lemma OpenRowIsAnchorable(w: World, e: int, block: int)
    requires Core(w) && Get(w.db, e).Some? && w.db.epochs[e].anchorTxid.None?
    requires Newest(w.db, e).Some? && Newest(w.db, e).value.outcome.None?
    ensures var row := Newest(w.db, e).value;
            && Anchorable(w.db, e, row.evidence.txid, block)
            && var later := WithInclusion(w.db, e, row.evidence.txid, block);
            && later.tombstones == w.db.tombstones
            && later.epochs == w.db.epochs[e := EpochRow(w.db.epochs[e].pointer, Some(row.evidence.txid), Some(block))]
            && ByHash(later, row.evidence.txid) == Some(row.(outcome := Some(Confirmed(Some(block)))))
  {
    NewestIsItsRow(w, e);
    var row := Newest(w.db, e).value;
    var anchored := WithAnchor(w.db, e, row.evidence.txid, Some(block)).value;
    var r := RowOf(w.db.journal, row.evidence.txid);
    assert Proves(anchored, row, Confirmed(Some(block)));
    var later := WithOutcome(anchored, row.evidence.txid, Confirmed(Some(block))).value;
    assert later.journal[r].evidence.txid == row.evidence.txid;
    assert RowOf(later.journal, row.evidence.txid) == r;
  }

  /** The own fence names the open row, or a row that is over and then goes. */
  lemma OwnFenceAdmitsNewest(w: World, job: Job)
    requires Core(w) && Unanchored(w.db, job.epochId) && Newest(w.db, job.epochId).Some?
    requires w.fence.None? || w.fence.value.epochId == job.epochId
    ensures Admits(FenceInside(w, OwnFence(w, job)), Some(Newest(w.db, job.epochId).value.evidence.txid))
  {
    if w.fence.Some? {
      var m := w.fence.value;
      var r := RowOf(w.db.journal, m.txid);
      assert RowOk(w.db, w.db.journal[r]);
      NewestIsItsRow(w, job.epochId);
      assert r <= NewestOf(w.db.journal, job.epochId);
    }
  }

  /** Only the fence of another epoch keeps a call out of a free lane. */
  lemma NotLetIn(w: World, job: Job, prepared: Answer, found: Answer)
    requires !Admits(w.fence, Wanted(w, job))
    ensures w.fence.Some? && w.fence.value.epochId != job.epochId
    ensures HeldAnchors(w, job, prepared, found, false, w)
  {}

  lemma ResumesInside(w: World, job: Job, found: Answer)
    requires Core(w) && ResumesOutside(w, job, found)
    ensures Admits(w.fence, Wanted(w, job)) && Unanchored(w.db, job.epochId)
    ensures var fence := FenceInside(w, OwnFence(w, job));
            && Resumes(w.db, fence, w.chain, job, found)
            && Completed(w, job, found, World(Resumed(w.db, fence, w.chain, job, found), None, w.chain))
  {
    var row := Newest(w.db, job.epochId).value;
    OpenRowIsAnchorable(w, job.epochId, Verdict(w.chain, row.evidence, job.confirmationDepth, found).block);
    OwnFenceAdmitsNewest(w, job);
  }

  /** A served epoch without an anchor, all of whose submissions are proven to have expired; a new hash
      signed in time; and no other epoch has the fence. */
  predicate FreshOutside(w: World, job: Job, prepared: Answer) {
    && Open(w.db, job.epochId, job.logDigest) && AllExpired(w.db, job.epochId)
    && prepared.Prepared? && HexHash(prepared.evidence.txid) && Unused(w.db, prepared.evidence.txid)
    && prepared.evidence.submitBlock < job.closeBlock + job.confirmationDepth
    && (w.fence.None? || w.fence.value.epochId == job.epochId)
  }

  function WithRow(db: Db, row: Submission): Db { db.(journal := db.journal + [row]) }

  lemma FreshIsPreparable(w: World, job: Job, prepared: Answer)
    requires Core(w) && FreshOutside(w, job, prepared)
    ensures Newest(w.db, job.epochId).None? || Newest(w.db, job.epochId).value.Expired()
    ensures Preparable(w.db, job, prepared)
    ensures Recorded(w.db, job, prepared) == WithRow(w.db, RowOfJob(job, prepared.evidence))
  {
    NewHashIsRecorded(w.db, job.epochId, job.netuid, job.logDigest, prepared.evidence);
    RowIsLast(w.db, RowOfJob(job, prepared.evidence));
  }

  lemma RowIsLast(db: Db, row: Submission)
    requires Unused(db, row.evidence.txid)
    ensures ByHash(WithRow(db, row), row.evidence.txid) == Some(row)
    ensures RowOf(WithRow(db, row).journal, row.evidence.txid) == |db.journal|
  {
    assert WithRow(db, row).journal[|db.journal|] == row;
  }

  /** Exactly that evidence was sent, after its row was recorded; nothing can be known of it but that it
      is still open, with its fence up, or that it is proven to have expired already. */
  ghost predicate Dispatched(w: World, job: Job, prepared: Answer, found: Answer, won: bool, after: World)
    requires prepared.Prepared?
  {
    var ev := prepared.evidence;
    var row := RowOfJob(job, ev);
    && !won && after.chain == w.chain.(sent := w.chain.sent + [ev]) && !WasSent(w.chain.sent, ev.txid)
    && match Verdict(after.chain, ev, job.confirmationDepth, found)
       case Found(_) => false
       case NotThere(proof) =>
         if 0 < proof.mortalEra
         then after.db == WithRow(w.db, row.(outcome := Some(ExpiredAbsent(proof)))) && after.fence.None?
         else after.db == WithRow(w.db, row) && after.fence == Some(MarkerOf(job, ev))
       case Unknown => after.db == WithRow(w.db, row) && after.fence == Some(MarkerOf(job, ev))
  }

  /** With nothing but expired rows the own fence is a stale one. */
  lemma FreshInside(w: World, job: Job, prepared: Answer)
    requires Core(w) && FreshOutside(w, job, prepared)
    ensures FenceInside(w, OwnFence(w, job)).None? && Unanchored(w.db, job.epochId)
    ensures Fresh(w.(fence := None), job, prepared)
  {
    FreshIsPreparable(w, job, prepared);
    if w.fence.Some? {
      var r := RowOf(w.db.journal, w.fence.value.txid);
      assert w.db.journal[r].epochId == job.epochId && r <= NewestOf(w.db.journal, job.epochId);
    }
  }

  /** The hash is new: it was never sent, so it cannot have been included. */
  lemma FreshIsNew(w: World, job: Job, prepared: Answer)
    requires Core(w) && FreshOutside(w, job, prepared)
    ensures !WasSent(w.chain.sent, prepared.evidence.txid) && prepared.evidence.txid !in w.chain.landed
  {
    forall i | 0 <= i < |w.chain.sent| ensures w.chain.sent[i].txid != prepared.evidence.txid {
      assert SentRowOk(w.db, w.chain.sent[i]);
    }
  }

  lemma FreshDispatches(w: World, job: Job, prepared: Answer, found: Answer, won: bool, after: World)
    requires Core(w) && FreshOutside(w, job, prepared)
    requires Preparable(w.db, job, prepared) && FreshEnds(w.(fence := None), job, prepared, found, won, after)
    ensures Dispatched(w, job, prepared, found, won, after)
  {
    FreshIsNew(w, job, prepared);
    FreshIsPreparable(w, job, prepared);
    var ev := prepared.evidence;
    var verdict := Verdict(after.chain, ev, job.confirmationDepth, found);
    if verdict.NotThere? { FreshExpires(w, job, prepared, verdict.proof); }
  }

  lemma FreshExpires(w: World, job: Job, prepared: Answer, proof: AbsenceProof)
    requires Core(w) && FreshOutside(w, job, prepared)
    ensures var ev := prepared.evidence;
            var row := RowOfJob(job, ev);
            var r := WithOutcome(WithRow(w.db, row), ev.txid, ExpiredAbsent(proof));
            && (r.Success? <==> Evident(WithRow(w.db, row), row, ExpiredAbsent(proof)))
            && (r.Success? ==> r.value == WithRow(w.db, row.(outcome := Some(ExpiredAbsent(proof)))))
  {
    FreshIsPreparable(w, job, prepared);
    SubmitKeepsIndex(w.db, job.epochId, job.netuid, job.logDigest, prepared.evidence);
    var row := RowOfJob(job, prepared.evidence);
    assert WithRow(w.db, row).journal[|w.db.journal|] == row;
    OutcomeIsTaken(WithRow(w.db, row), |w.db.journal|, ExpiredAbsent(proof));
  }

  /** `anchor_epoch`: it dispatches at most one hash, and only one that was signed and recorded in
      this call before its deadline; a returned row is the durable anchor of the epoch. With a free lane it
      keeps an anchor, completes an open submission that was included, and dispatches a fresh one. */
  method AnchorEpoch(index: Index, lane: Lane, net: Network, p: Pid, job: Job, prepared: Answer, found: Answer,
                     ghost s: State)
    returns (r: Result<EpochRow, AnchorError>, ghost t: State)
    requires Outside(s, index, lane, net, p) && lane.holder != Some(p) && Core(s.w)
    modifies index, lane, net
    ensures OwnRun(s, t, p) && Outside(t, index, lane, net, p) && lane.holder == old(lane.holder)
    ensures r.Success? ==> AnchoredBy(index, lane, job.epochId, r.value)
    ensures SentAtMost(old(net.chain), net.chain, old(index.Content()), job, prepared)
    ensures old(lane.holder).Some? ==>
              r == Failure(LaneTimeout) && WorldOf(index, lane, net) == old(WorldOf(index, lane, net))
    ensures KeepsAnchor(s.w, old(lane.holder).None?, WorldOf(index, lane, net), job.epochId, r)
    ensures old(lane.holder).None? ==> HeldAnchors(s.w, job, prepared, found, r.Success?, WorldOf(index, lane, net))
  {
    PeekedIsBacked(s.w, job);
    var entered, marker, wanted;
    entered, marker, wanted, t := EnterForEpoch(index, lane, net, p, job, s);
    if entered.Failure? {
      if old(lane.holder).None? { NotLetIn(s.w, job, prepared, found); }
      return Failure(entered.error), t;
    }
    r, t := AnchorHeld(index, lane, net, p, job, marker, wanted, prepared, found, s, t);
    lane.Release(p);
  }
}
