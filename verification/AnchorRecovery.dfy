/** What one undisturbed anchor call (vidaio/authority/anchoring.py) achieves from any state that an
    interleaving with crashes can leave behind: runs of the machine in which a single caller moves, the
    recovery of a crashed call, and a call for an epoch that is anchored already. */
module AnchorRecovery {
  import opened Wrappers
  import opened EpochIndex
  import opened WriterLane
  import opened AnchorProtocol
  import opened AnchorSafety

  // -- runs of one caller ------------------------------------------------------

  predicate Own(a: Action, p: Pid) {
    (a.Start? || a.Act? || a.Abort?) && a.p == p
  }

  /** `p` alone takes the machine from `s` to `t`. */
  ghost predicate OwnRun(s: State, t: State, p: Pid) {
    exists actions :: (forall i :: 0 <= i < |actions| ==> Own(actions[i], p)) && t == Run(s, actions)
  }

  lemma {:induction false} RunOneMore(s: State, actions: seq<Action>, a: Action)
    ensures Run(s, actions + [a]) == Apply(Run(s, actions), a)
    decreases |actions|
  {
    if actions == [] {
      assert (actions + [a])[1..] == [];
    } else {
      assert (actions + [a])[1..] == actions[1..] + [a];
      RunOneMore(Apply(s, actions[0]), actions[1..], a);
    }
  }

  lemma OwnStart(s: State, p: Pid)
    ensures OwnRun(s, s, p)
  {
    assert s == Run(s, []);
  }

  lemma OwnStep(s: State, t: State, p: Pid, a: Action)
    requires OwnRun(s, t, p) && Own(a, p)
    ensures OwnRun(s, Apply(t, a), p)
  {
    var actions :| (forall i :: 0 <= i < |actions| ==> Own(actions[i], p)) && t == Run(s, actions);
    RunOneMore(s, actions, a);
    var longer := actions + [a];
    assert forall i :: 0 <= i < |longer| ==> Own(longer[i], p);
    assert Apply(t, a) == Run(s, longer);
  }

  // -- what one undisturbed call achieves -----------------------------------------

  /** `n` steps of `p` that ask the chain nothing; an idle caller stays where it is. */
  function Alone(s: State, p: Pid, n: nat): State
    decreases n
  {
    if n == 0 then s else Alone(Step(s, p, Nothing), p, n - 1)
  }

  function CallClear(s: State, p: Pid, netuid: Option<int>): State {
    Alone(Goto(s, p, PeekToClear(netuid)), p, 6)
  }

  function CallAnchor(s: State, p: Pid, job: Job): State {
    Alone(Goto(s, p, PeekJournal(job)), p, 8)
  }

  /** Nothing that matters is open any more about the fenced hash. */
  ghost predicate Settled(db: Db, m: Marker) {
    var row := ByHash(db, m.txid);
    row.Some? && (row.value.outcome.Some? || Carries(db, m))
  }

  /** The epoch is served and its anchor is the fenced hash. */
  ghost predicate Carries(db: Db, m: Marker) {
    Get(db, m.epochId).Some? && Get(db, m.epochId).value.anchorTxid == Some(m.txid)
  }

  ghost predicate Confirms(db: Db, txid: TxHash) {
    var row := ByHash(db, txid);
    row.Some? && row.value.outcome.Some? && row.value.outcome.value.Confirmed?
  }

  lemma AloneStep(s: State, p: Pid, n: nat)
    requires 0 < n
    ensures Alone(s, p, n) == Alone(Step(s, p, Nothing), p, n - 1)
  {}

  lemma AloneIdle(s: State, p: Pid, n: nat)
    requires PcOf(s, p).Idle?
    ensures Alone(s, p, n) == s
  {}

  lemma GotoTwice(s: State, p: Pid, pc: Pc, next: Pc)
    ensures Goto(Goto(s, p, pc), p, next) == Goto(s, p, next)
  {
    assert s.procs[p := pc][p := next] == s.procs[p := next];
  }

  /** From outside into the free lane. */
  lemma EntersAt(s: State, p: Pid, pc: Pc, txid: Option<TxHash>, next: Pc, n: nat)
    requires s.lock.None? && Admits(s.w.fence, txid) && 0 < n
    requires Step(Goto(s, p, pc), p, Nothing) == Enter(Goto(s, p, pc), p, txid, next)
    ensures Alone(Goto(s, p, pc), p, n) == Alone(Goto(s, p, next).(lock := Some(p)), p, n - 1)
  {
    GotoTwice(s, p, pc, next);
    AloneStep(Goto(s, p, pc), p, n);
  }

  lemma ClearEnters(s: State, p: Pid, netuid: Option<int>, n: nat)
    requires s.lock.None? && s.w.fence.Some? && 2 <= n
    ensures Alone(Goto(s, p, PeekToClear(netuid)), p, n) ==
            Alone(Goto(s, p, RestoreForClear(netuid, s.w.fence.value)).(lock := Some(p)), p, n - 2)
  {
    var m := s.w.fence.value;
    GotoTwice(s, p, PeekToClear(netuid), EnterToClear(netuid, m));
    AloneStep(Goto(s, p, PeekToClear(netuid)), p, n);
    EntersAt(s, p, EnterToClear(netuid, m), Some(m.txid), RestoreForClear(netuid, m), n - 1);
  }

  lemma CallClearEnters(s: State, p: Pid, netuid: Option<int>)
    requires s.lock.None? && s.w.fence.Some?
    ensures CallClear(s, p, netuid) ==
            Alone(Goto(s, p, RestoreForClear(netuid, s.w.fence.value)).(lock := Some(p)), p, 4)
  {
    ClearEnters(s, p, netuid, 6);
  }

  /** The world after a call to clear the fence of `m`: unchanged, or without the fence and with
      nothing else touched but the outcome of its row. */
  ghost predicate Cleared(w: World, after: World, m: Marker, may: bool) {
    && (after.fence.None? <==> may)
    && (!may ==> after == w)
    && (may ==> after.chain == w.chain && after.db.epochs == w.db.epochs && after.db.tombstones == w.db.tombstones
                && Terminal(after.db, m.txid) && Extends(w.db, after.db))
    && (Terminal(w.db, m.txid) ==> after.db == w.db)
  }

  ghost predicate Gone(s: State, p: Pid) {
    PcOf(s, p).Idle? && s.lock.None?
  }

  /** Crash recovery: from every state an interleaving with crashes can leave behind, one
      undisturbed `clear_confirmed_anchor_writer` of the right subnet removes the fence exactly
      when its row is terminal or its epoch already carries the hash; then the row is terminal.
      Otherwise it changes nothing. */
  lemma ClearRecovers(s: State, p: Pid, netuid: Option<int>)
    requires Reachable(s) && s.lock.None? && PcOf(s, p).Idle? && s.w.fence.Some?
    ensures var m := s.w.fence.value;
            var may := Settled(s.w.db, m) && (netuid.None? || netuid.value == m.netuid);
            Gone(CallClear(s, p, netuid), p) && Cleared(s.w, CallClear(s, p, netuid).w, m, may)
  {
    ReachableInv(s);
    ClearCompletes(s, p, netuid);
  }

  lemma ClearCompletes(s: State, p: Pid, netuid: Option<int>)
    requires Core(s.w) && s.lock.None? && s.w.fence.Some?
    ensures var m := s.w.fence.value;
            var may := Settled(s.w.db, m) && (netuid.None? || netuid.value == m.netuid);
            Gone(CallClear(s, p, netuid), p) && Cleared(s.w, CallClear(s, p, netuid).w, m, may)
  {
    var m := s.w.fence.value;
    CallClearEnters(s, p, netuid);
    ClearDecides(Goto(s, p, RestoreForClear(netuid, m)).(lock := Some(p)), p, netuid, m);
  }

  lemma ClearDecides(s: State, p: Pid, netuid: Option<int>, m: Marker)
    requires Core(s.w) && s.lock == Some(p) && s.w.fence == Some(m) && PcOf(s, p) == RestoreForClear(netuid, m)
    ensures var may := Settled(s.w.db, m) && (netuid.None? || netuid.value == m.netuid);
            Gone(Alone(s, p, 4), p) && Cleared(s.w, Alone(s, p, 4).w, m, may)
  {
    RestoredIsNoOp(s.w.db, m);
    var s4 := Step(s, p, Nothing);
    AloneStep(s, p, 4);
    if netuid.Some? && netuid.value != m.netuid {
      AloneIdle(s4, p, 3);
    } else {
      ClearFinishes(s4, p, m);
    }
  }

  /** A confirmed row belongs to an epoch that is served with exactly this anchor. */
  lemma ConfirmedIsServed(w: World, m: Marker)
    requires Core(w) && Backed(w.db, m)
    requires var row := w.db.journal[RowOf(w.db.journal, m.txid)]; row.outcome.Some? && row.outcome.value.Confirmed?
    ensures Carries(w.db, m)
  {
    assert RowOk(w.db, w.db.journal[RowOf(w.db.journal, m.txid)]);
  }

  lemma ClearFinishes(s: State, p: Pid, m: Marker)
    requires Core(s.w) && s.lock == Some(p) && s.w.fence == Some(m) && PcOf(s, p) == DecideClear(m.txid)
    ensures Gone(Alone(s, p, 3), p) && Cleared(s.w, Alone(s, p, 3).w, m, Settled(s.w.db, m))
  {
    if !Unresolved(s.w.db, m.txid) {
      var row := s.w.db.journal[RowOf(s.w.db.journal, m.txid)];
      if row.outcome.value.Confirmed? { ConfirmedIsServed(s.w, m); }
      ClearMayLower(s, p, m);
      ExtendsItself(s.w.db);
    } else if Settled(s.w.db, m) {
      AnchoredHashConfirms(s.w, m.epochId);
      ClearMayConfirm(s, p, m);
      ConfirmClears(s.w, m, s.w.db.epochs[m.epochId].anchorBlock);
    } else {
      ClearMustKeep(s, p, m);
    }
  }

  lemma ClearMustKeep(s: State, p: Pid, m: Marker)
    requires s.lock == Some(p) && PcOf(s, p) == DecideClear(m.txid)
    requires Backed(s.w.db, m) && Unresolved(s.w.db, m.txid) && !Settled(s.w.db, m)
    ensures Gone(Alone(s, p, 3), p) && Alone(s, p, 3).w == s.w
  {
    AloneStep(s, p, 3);
    AloneIdle(Step(s, p, Nothing), p, 2);
  }

  lemma ClearMayLower(s: State, p: Pid, m: Marker)
    requires s.lock == Some(p) && s.w.fence == Some(m) && PcOf(s, p) == DecideClear(m.txid)
    requires Backed(s.w.db, m) && Terminal(s.w.db, m.txid) && (Carries(s.w.db, m) || !Confirms(s.w.db, m.txid))
    ensures Gone(Alone(s, p, 3), p) && Alone(s, p, 3).w == s.w.(fence := None)
  {
    AloneStep(s, p, 3);
    FenceLowers(Goto(s, p, LowerFence(m.txid)), p, m.txid, 2);
  }

  lemma ClearMayConfirm(s: State, p: Pid, m: Marker)
    requires s.lock == Some(p) && s.w.fence == Some(m) && PcOf(s, p) == DecideClear(m.txid)
    requires Backed(s.w.db, m) && Unresolved(s.w.db, m.txid) && Carries(s.w.db, m)
    requires WithOutcome(s.w.db, m.txid, Confirmed(s.w.db.epochs[m.epochId].anchorBlock)).Success?
    ensures var db := WithOutcome(s.w.db, m.txid, Confirmed(s.w.db.epochs[m.epochId].anchorBlock)).value;
            Gone(Alone(s, p, 3), p) && Alone(s, p, 3).w == World(db, None, s.w.chain)
  {
    var block := s.w.db.epochs[m.epochId].anchorBlock;
    AloneStep(s, p, 3);
    StoresAndLowers(Goto(s, p, StoreConfirmed(m.txid, block)), p, m.txid, block, 2);
  }

  ghost predicate HasAnchor(w: World, e: int) {
    e in w.db.epochs && w.db.epochs[e].anchorTxid.Some?
  }

  ghost predicate Acknowledged(db: Db, txid: TxHash) {
    var row := ByHash(db, txid);
    row.Some? && row.value.outcome.Some? && row.value.outcome.value.OperatorAcknowledged?
  }

  /** The hash an epoch carries may be confirmed unless something else became of it. */
  lemma AnchoredHashConfirms(w: World, e: int)
    requires Core(w) && e in w.db.epochs && w.db.epochs[e].anchorTxid.Some?
    ensures var h, outcome := w.db.epochs[e].anchorTxid.value, Confirmed(w.db.epochs[e].anchorBlock);
            var r := RowOf(w.db.journal, h);
            && r < |w.db.journal| && w.db.journal[r].epochId == e && !w.db.journal[r].Expired()
            && (w.db.journal[r].outcome.Some? && w.db.journal[r].outcome.value.Confirmed? ==>
                  w.db.journal[r].outcome == Some(outcome))
            && (w.db.journal[r].outcome.None? ==> Proves(w.db, w.db.journal[r], outcome))
            && (!Acknowledged(w.db, h) ==> WithOutcome(w.db, h, outcome).Success?)
  {
    assert AnchorOk(w, e);
    assert RowOk(w.db, w.db.journal[RowOf(w.db.journal, w.db.epochs[e].anchorTxid.value)]);
  }

  lemma ConfirmClears(w: World, m: Marker, block: Option<int>)
    requires Core(w) && w.fence == Some(m) && Unresolved(w.db, m.txid)
    requires WithOutcome(w.db, m.txid, Confirmed(block)).Success?
    ensures Cleared(w, World(WithOutcome(w.db, m.txid, Confirmed(block)).value, None, w.chain), m, true)
  {
    FinishKeepsIndex(w.db, m.txid, Confirmed(block));
    OutcomeMakesTerminal(w.db, m.txid, Confirmed(block));
  }

  lemma OutcomeMakesTerminal(db: Db, txid: TxHash, outcome: Outcome)
    requires WithOutcome(db, txid, outcome).Success?
    ensures var later := WithOutcome(db, txid, outcome).value;
            Terminal(later, txid) && later.epochs == db.epochs && later.tombstones == db.tombstones
  {
    var r := RowOf(db.journal, txid);
    var later := WithOutcome(db, txid, outcome).value;
    assert later.journal[r].evidence.txid == txid;
    assert RowOf(later.journal, txid) == r;
  }

  /** The last step: the fence goes when it is absent already or names the hash. */
  lemma FenceLowers(s: State, p: Pid, h: TxHash, n: nat)
    requires s.lock == Some(p) && PcOf(s, p) == LowerFence(h) && Admits(s.w.fence, Some(h)) && 0 < n
    ensures Alone(s, p, n) == Leave(PutFence(s, None), p)
  {
    AloneStep(s, p, n);
    AloneIdle(Leave(PutFence(s, None), p), p, n - 1);
  }

  // -- an epoch that already is anchored ---------------------------------------

  /** The anchor of an epoch is the hash its newest journal row names, and never expired. */
  lemma AnchorIsNewest(w: World, e: int)
    requires Core(w) && HasAnchor(w, e)
    ensures var h := w.db.epochs[e].anchorTxid.value;
            && Newest(w.db, e).Some? && Newest(w.db, e).value.evidence.txid == h
            && Newest(w.db, e) == ByHash(w.db, h) && !Newest(w.db, e).value.Expired()
            && Get(w.db, e) == Some(w.db.epochs[e])
  {
    assert AnchorOk(w, e);
    var h := w.db.epochs[e].anchorTxid.value;
    var r, n := RowOf(w.db.journal, h), NewestOf(w.db.journal, e);
    assert !w.db.journal[r].Expired();
    assert r <= n;
  }

  /** Outside the lane: the newest row of the journal and the fence file are read. */
  lemma AnchorPeeks(s: State, p: Pid, job: Job, n: nat)
    requires Newest(s.w.db, job.epochId).Some? && 2 <= n
    ensures var h := Newest(s.w.db, job.epochId).value.evidence.txid;
            var ours := s.w.fence.Some? && s.w.fence.value.epochId == job.epochId;
            Alone(Goto(s, p, PeekJournal(job)), p, n) ==
            Alone(Goto(s, p, EnterToAnchor(job, Some(h), if ours then s.w.fence else None)), p, n - 2)
  {
    var h := Newest(s.w.db, job.epochId).value.evidence.txid;
    var s1 := Goto(s, p, PeekJournal(job));
    var s2 := Goto(s, p, PeekFence(job, Some(h)));
    AloneStep(s1, p, n);
    GotoTwice(s, p, PeekJournal(job), PeekFence(job, Some(h)));
    AloneStep(s2, p, n - 1);
    var seen := if s.w.fence.Some? && s.w.fence.value.epochId == job.epochId then s.w.fence else None;
    GotoTwice(s, p, PeekFence(job, Some(h)), EnterToAnchor(job, Some(h), seen));
  }

  lemma AnchorEnters(s: State, p: Pid, job: Job, h: TxHash, n: nat, left: nat)
    requires n == left + 3 && s.lock.None?
    requires Newest(s.w.db, job.epochId).Some? && Newest(s.w.db, job.epochId).value.evidence.txid == h
    requires s.w.fence.Some? && s.w.fence.value.epochId != job.epochId ==> !Admits(s.w.fence, Some(h))
    ensures Alone(Goto(s, p, PeekJournal(job)), p, n) == Alone(
              if s.w.fence.None? then Goto(s, p, CheckAnchored(job, Some(h))).(lock := Some(p))
              else if s.w.fence.value.epochId == job.epochId then
                Goto(s, p, RestoreForAnchor(job, s.w.fence.value)).(lock := Some(p))
              else Goto(s, p, Idle), p, left)
  {
    AnchorPeeks(s, p, job, n);
    if s.w.fence.None? {
      EntersAt(s, p, EnterToAnchor(job, Some(h), None), Some(h), CheckAnchored(job, Some(h)), n - 2);
    } else if s.w.fence.value.epochId == job.epochId {
      var m := s.w.fence.value;
      EntersAt(s, p, EnterToAnchor(job, Some(h), Some(m)), Some(m.txid), RestoreForAnchor(job, m), n - 2);
    } else {
      TurnedAway(s, p, EnterToAnchor(job, Some(h), None), Some(h), CheckAnchored(job, Some(h)), n - 2);
    }
  }

  lemma CallAnchorEnters(s: State, p: Pid, job: Job, h: TxHash)
    requires s.lock.None?
    requires Newest(s.w.db, job.epochId).Some? && Newest(s.w.db, job.epochId).value.evidence.txid == h
    requires s.w.fence.Some? && s.w.fence.value.epochId != job.epochId ==> !Admits(s.w.fence, Some(h))
    ensures CallAnchor(s, p, job) == Alone(
              if s.w.fence.None? then Goto(s, p, CheckAnchored(job, Some(h))).(lock := Some(p))
              else if s.w.fence.value.epochId == job.epochId then
                Goto(s, p, RestoreForAnchor(job, s.w.fence.value)).(lock := Some(p))
              else Goto(s, p, Idle), p, 5)
  {
    AnchorEnters(s, p, job, h, 8, 5);
  }

  lemma TurnedAway(s: State, p: Pid, pc: Pc, txid: Option<TxHash>, next: Pc, n: nat)
    requires s.lock.None? && !Admits(s.w.fence, txid) && 0 < n
    requires Step(Goto(s, p, pc), p, Nothing) == Enter(Goto(s, p, pc), p, txid, next)
    ensures Alone(Goto(s, p, pc), p, n) == Alone(Goto(s, p, Idle), p, n - 1)
  {
    GotoTwice(s, p, pc, Idle);
    AloneStep(Goto(s, p, pc), p, n);
  }

  lemma ForeignFenceNamesAnother(w: World, e: int)
    requires Core(w) && HasAnchor(w, e) && w.fence.Some? && w.fence.value.epochId != e
    ensures !Admits(w.fence, w.db.epochs[e].anchorTxid)
  {
    assert AnchorOk(w, e);
  }

  lemma ConfirmedRow(w: World, h: TxHash, block: Option<int>)
    requires Core(w) && ByHash(w.db, h).Some? && WithOutcome(w.db, h, Confirmed(block)).Success?
    ensures var db := WithOutcome(w.db, h, Confirmed(block)).value;
            ByHash(db, h) == Some(ByHash(w.db, h).value.(outcome := Some(Confirmed(block))))
  {
    FinishKeepsIndex(w.db, h, Confirmed(block));
    RowStays(w.db, WithOutcome(w.db, h, Confirmed(block)).value, h);
  }

  /** The world with the row of the anchor confirmed and no fence. */
  ghost predicate Reconfirmed(w: World, after: World, e: int)
    requires HasAnchor(w, e)
  {
    var h, block := w.db.epochs[e].anchorTxid.value, w.db.epochs[e].anchorBlock;
    && after.chain == w.chain && after.db.epochs == w.db.epochs && after.fence.None?
    && ByHash(w.db, h).Some?
    && ByHash(after.db, h) == Some(ByHash(w.db, h).value.(outcome := Some(Confirmed(block))))
  }

  lemma ConfirmReconfirms(w: World, e: int)
    requires Core(w) && HasAnchor(w, e) && !Acknowledged(w.db, w.db.epochs[e].anchorTxid.value)
    ensures var outcome := Confirmed(w.db.epochs[e].anchorBlock);
            var r := WithOutcome(w.db, w.db.epochs[e].anchorTxid.value, outcome);
            r.Success? && Reconfirmed(w, World(r.value, None, w.chain), e)
  {
    AnchoredHashConfirms(w, e);
    ConfirmedRow(w, w.db.epochs[e].anchorTxid.value, w.db.epochs[e].anchorBlock);
  }

  lemma ReanchorConfirms(s: State, p: Pid, e: int, n: nat)
    requires Core(s.w) && s.lock == Some(p) && HasAnchor(s.w, e) && 2 <= n
    requires PcOf(s, p) == StoreConfirmed(s.w.db.epochs[e].anchorTxid.value, s.w.db.epochs[e].anchorBlock)
    requires var h := s.w.db.epochs[e].anchorTxid.value; Admits(s.w.fence, Some(h)) && !Acknowledged(s.w.db, h)
    ensures Gone(Alone(s, p, n), p) && Reconfirmed(s.w, Alone(s, p, n).w, e)
  {
    var h, block := s.w.db.epochs[e].anchorTxid.value, s.w.db.epochs[e].anchorBlock;
    ConfirmReconfirms(s.w, e);
    StoresAndLowers(s, p, h, block, n);
  }

  lemma StoreGoesOn(s: State, p: Pid, h: TxHash, block: Option<int>)
    requires s.lock == Some(p) && PcOf(s, p) == StoreConfirmed(h, block)
    requires WithOutcome(s.w.db, h, Confirmed(block)).Success?
    ensures Step(s, p, Nothing) == Goto(PutDb(s, WithOutcome(s.w.db, h, Confirmed(block)).value), p, LowerFence(h))
  {}

  /** Outcome first, fence second. */
  lemma StoresAndLowers(s: State, p: Pid, h: TxHash, block: Option<int>, n: nat)
    requires s.lock == Some(p) && PcOf(s, p) == StoreConfirmed(h, block) && 2 <= n
    requires WithOutcome(s.w.db, h, Confirmed(block)).Success? && Admits(s.w.fence, Some(h))
    ensures Gone(Alone(s, p, n), p)
    ensures Alone(s, p, n).w == World(WithOutcome(s.w.db, h, Confirmed(block)).value, None, s.w.chain)
  {
    StoreGoesOn(s, p, h, block);
    AloneStep(s, p, n);
    FenceLowers(Step(s, p, Nothing), p, h, n - 1);
  }

  lemma CheckFindsAnchor(s: State, p: Pid, job: Job)
    requires Core(s.w) && HasAnchor(s.w, job.epochId)
    requires PcOf(s, p) == CheckAnchored(job, s.w.db.epochs[job.epochId].anchorTxid)
    ensures Step(s, p, Nothing) ==
            Goto(s, p, StoreConfirmed(s.w.db.epochs[job.epochId].anchorTxid.value,
                                      s.w.db.epochs[job.epochId].anchorBlock))
  {
    AnchorIsNewest(s.w, job.epochId);
  }

  lemma AnchoredChecks(s: State, p: Pid, job: Job, n: nat)
    requires Core(s.w) && HasAnchor(s.w, job.epochId) && 1 <= n
    requires PcOf(s, p) == CheckAnchored(job, s.w.db.epochs[job.epochId].anchorTxid)
    ensures var row := s.w.db.epochs[job.epochId];
            Alone(s, p, n) == Alone(Goto(s, p, StoreConfirmed(row.anchorTxid.value, row.anchorBlock)), p, n - 1)
  {
    CheckFindsAnchor(s, p, job);
    AloneStep(s, p, n);
  }

  /** The re-check inside the lane: confirm the hash the epoch carries and take the fence down. */
  lemma AnchoredFinishes(s: State, p: Pid, job: Job, n: nat)
    requires Core(s.w) && s.lock == Some(p) && HasAnchor(s.w, job.epochId) && 3 <= n
    requires var h := s.w.db.epochs[job.epochId].anchorTxid.value;
             PcOf(s, p) == CheckAnchored(job, Some(h)) && Admits(s.w.fence, Some(h))
             && (Acknowledged(s.w.db, h) ==> s.w.fence.None?)
    ensures Gone(Alone(s, p, n), p)
    ensures if Acknowledged(s.w.db, s.w.db.epochs[job.epochId].anchorTxid.value) then Alone(s, p, n).w == s.w
            else Reconfirmed(s.w, Alone(s, p, n).w, job.epochId)
  {
    AnchoredChecks(s, p, job, n);
    AnchoredStores(Goto(s, p, StoreConfirmed(s.w.db.epochs[job.epochId].anchorTxid.value,
                                             s.w.db.epochs[job.epochId].anchorBlock)), p, job.epochId, n - 1);
  }

  lemma AnchoredStores(s: State, p: Pid, e: int, n: nat)
    requires Core(s.w) && s.lock == Some(p) && HasAnchor(s.w, e) && 2 <= n
    requires PcOf(s, p) == StoreConfirmed(s.w.db.epochs[e].anchorTxid.value, s.w.db.epochs[e].anchorBlock)
    requires Admits(s.w.fence, s.w.db.epochs[e].anchorTxid)
    ensures Gone(Alone(s, p, n), p)
    ensures if Acknowledged(s.w.db, s.w.db.epochs[e].anchorTxid.value) then Alone(s, p, n).w == s.w
            else Reconfirmed(s.w, Alone(s, p, n).w, e)
  {
    if Acknowledged(s.w.db, s.w.db.epochs[e].anchorTxid.value) {
      AcknowledgedRefuses(s, p, s.w.db.epochs[e].anchorTxid.value, s.w.db.epochs[e].anchorBlock, n);
    } else {
      ReanchorConfirms(s, p, e, n);
    }
  }

  /** An acknowledged row keeps its outcome, so the call ends with the conflict. */
  lemma AcknowledgedRefuses(s: State, p: Pid, h: TxHash, block: Option<int>, n: nat)
    requires s.lock == Some(p) && PcOf(s, p) == StoreConfirmed(h, block) && Acknowledged(s.w.db, h) && 1 <= n
    ensures Gone(Alone(s, p, n), p) && Alone(s, p, n).w == s.w
  {
    AloneStep(s, p, n);
    AloneIdle(Leave(s, p), p, n - 1);
  }

  /** What one undisturbed `anchor_epoch` leaves behind when the epoch already has an anchor. */
  ghost predicate Reanchored(w: World, after: World, e: int)
    requires HasAnchor(w, e)
  {
    if w.fence.Some? && w.fence.value.epochId != e then after == w
    else if Acknowledged(w.db, w.db.epochs[e].anchorTxid.value) then after == w.(fence := None)
    else Reconfirmed(w, after, e)
  }

  /** `anchor_epoch` on an anchored epoch never writes to the chain and never changes the anchor.
      It confirms the journal row of the anchor and leaves no fence, except that the fence of
      another epoch keeps it out altogether and an acknowledged row stays acknowledged. */
  lemma AnchorIsIdempotent(s: State, p: Pid, job: Job)
    requires Reachable(s) && s.lock.None? && PcOf(s, p).Idle? && HasAnchor(s.w, job.epochId)
    ensures Gone(CallAnchor(s, p, job), p) && Reanchored(s.w, CallAnchor(s, p, job).w, job.epochId)
  {
    ReachableInv(s);
    ReanchorCompletes(s, p, job);
  }

  lemma ReanchorCompletes(s: State, p: Pid, job: Job)
    requires Core(s.w) && s.lock.None? && HasAnchor(s.w, job.epochId)
    ensures Gone(CallAnchor(s, p, job), p) && Reanchored(s.w, CallAnchor(s, p, job).w, job.epochId)
  {
    var e := job.epochId;
    var h := s.w.db.epochs[e].anchorTxid.value;
    AnchorIsNewest(s.w, e);
    assert AnchorOk(s.w, e);
    if s.w.fence.Some? && s.w.fence.value.epochId != e { ForeignFenceNamesAnother(s.w, e); }
    CallAnchorEnters(s, p, job, h);
    if s.w.fence.None? {
      var s4 := Goto(s, p, CheckAnchored(job, Some(h))).(lock := Some(p));
      assert Admits(s4.w.fence, Some(h));
      AnchoredFinishes(s4, p, job, 5);
    } else if s.w.fence.value.epochId == e {
      ReanchorRestores(Goto(s, p, RestoreForAnchor(job, s.w.fence.value)).(lock := Some(p)), p, job);
    } else {
      AloneIdle(Goto(s, p, Idle), p, 5);
    }
  }

  /** The own fence of the epoch: its row is still there, and a terminal one lowers the fence. */
  lemma ReanchorRestores(s: State, p: Pid, job: Job)
    requires Core(s.w) && s.lock == Some(p) && HasAnchor(s.w, job.epochId) && s.w.fence.Some?
    requires s.w.fence.value.epochId == job.epochId && PcOf(s, p) == RestoreForAnchor(job, s.w.fence.value)
    ensures Gone(Alone(s, p, 5), p) && Reanchored(s.w, Alone(s, p, 5).w, job.epochId)
  {
    var h := s.w.db.epochs[job.epochId].anchorTxid.value;
    RestoreKnowsRow(s, p, job);
    AloneStep(s, p, 5);
    if Acknowledged(s.w.db, h) {
      GotoTwice(s, p, DropStaleFence(job, h), CheckAnchored(job, Some(h)));
      DropsAndFinishes(Goto(s, p, DropStaleFence(job, h)), p, job);
    } else {
      AnchoredFinishes(Goto(s, p, CheckAnchored(job, Some(h))), p, job, 4);
    }
  }

  lemma DropsAndFinishes(s: State, p: Pid, job: Job)
    requires Core(s.w) && s.lock == Some(p) && HasAnchor(s.w, job.epochId) && s.w.fence.Some?
    requires var h := s.w.db.epochs[job.epochId].anchorTxid.value;
             s.w.fence.value.txid == h && Acknowledged(s.w.db, h) && PcOf(s, p) == DropStaleFence(job, h)
    ensures Gone(Alone(s, p, 4), p) && Alone(s, p, 4).w == s.w.(fence := None)
  {
    var h := s.w.db.epochs[job.epochId].anchorTxid.value;
    DropsStale(s, p, job, h, 4);
    LoweredFenceAdvances(s.w);
    AnchoredFinishes(Goto(PutFence(s, None), p, CheckAnchored(job, Some(h))), p, job, 3);
  }

  lemma DropsStale(s: State, p: Pid, job: Job, h: TxHash, n: nat)
    requires s.lock == Some(p) && FenceNames(s.w.fence, h) && PcOf(s, p) == DropStaleFence(job, h) && 1 <= n
    ensures Alone(s, p, n) == Alone(Goto(PutFence(s, None), p, CheckAnchored(job, Some(h))), p, n - 1)
  {
    AloneStep(s, p, n);
  }

  lemma RestoreKnowsRow(s: State, p: Pid, job: Job)
    requires Core(s.w) && s.lock == Some(p) && HasAnchor(s.w, job.epochId) && s.w.fence.Some?
    requires s.w.fence.value.epochId == job.epochId && PcOf(s, p) == RestoreForAnchor(job, s.w.fence.value)
    ensures var h := s.w.db.epochs[job.epochId].anchorTxid.value;
            && s.w.fence.value.txid == h
            && Step(s, p, Nothing) ==
               Goto(s, p, if Acknowledged(s.w.db, h) then DropStaleFence(job, h) else CheckAnchored(job, Some(h)))
  {
    AnchorIsNewest(s.w, job.epochId);
    assert AnchorOk(s.w, job.epochId);
    RestoredIsNoOp(s.w.db, s.w.fence.value);
  }
}
