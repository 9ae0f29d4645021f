/** Finalizing an epoch and indexing its pointer (`EpochFinalizer.finalize` in
    vidaio/authority/finalizer.py, `record_finalized` in vidaio/authority/index.py) over a store with
    conditional creates: any number of finalizers, with different arguments for one epoch, a crash
    between any two requests, retries. */
module PointerBinding {
  import opened Wrappers
  import opened EpochIndex

  /** An epoch log as bytes. `digest` is their SHA-256, `body` stands for everything else. */
  datatype Document = Document(epochId: int, closeBlock: int, weightDigest: Digest, digest: Digest, body: string)

  function MemberKey(epochId: int): string {
    "finalized/epoch=" + Decimal(epochId) + "/log.json"
  }

  function Decimal(n: int): string
    decreases if n < 0 then 1 - n else n
  {
    if n < 0 then "-" + Decimal(-n) else if n < 10 then [('0' as int + n) as char]
      else Decimal(n / 10) + Decimal(n % 10)
  }

  /** The pointer that goes with stored bytes. */
  function PointerOf(d: Document): Pointer {
    Pointer(d.closeBlock, MemberKey(d.epochId), d.digest, d.weightDigest)
  }

  datatype Pc =
    | Idle
    | Probe(doc: Document)
    | ReProbe(epochId: int)
    | ReFetch(epochId: int)
    | ProbeToPut(doc: Document)
    | CreateMember(doc: Document)
    | CompareMember(doc: Document)
    | ProbeToMark(doc: Document)
    | CreateMarker(doc: Document)
    | Record(doc: Document)

  datatype State = State(logs: map<int, Document>, markers: set<int>, db: Db, procs: map<nat, Pc>)

  const EMPTY := State(map[], {}, EMPTY_DB, map[])

  /** `Begin` carries the log that the call's arguments would build. */
  datatype Action = Begin(p: nat, doc: Document) | Act(p: nat) | Crash(p: nat) | Other(st: Statement)

  function PcOf(s: State, p: nat): Pc { if p in s.procs then s.procs[p] else Idle }

  function Goto(s: State, p: nat, pc: Pc): State { s.(procs := s.procs[p := pc]) }

  function Step(s: State, p: nat): State {
    match PcOf(s, p)
    case Idle => s
    case Probe(doc) => Goto(s, p, if doc.epochId in s.markers then ReProbe(doc.epochId) else ProbeToPut(doc))
    case ReProbe(e) => Goto(s, p, if e in s.markers then ReFetch(e) else Idle)
    case ReFetch(e) => Goto(s, p, if e in s.logs then Record(s.logs[e]) else Idle)
    case ProbeToPut(doc) => Goto(s, p, if doc.epochId in s.markers then Idle else CreateMember(doc))
    case CreateMember(doc) =>
      if doc.epochId in s.logs then Goto(s, p, CompareMember(doc))
      else Goto(s.(logs := s.logs[doc.epochId := doc]), p, ProbeToMark(doc))
    case CompareMember(doc) =>
      Goto(s, p, if doc.epochId in s.logs && s.logs[doc.epochId] == doc then ProbeToMark(doc) else Idle)
    case ProbeToMark(doc) => Goto(s, p, if doc.epochId in s.markers then Record(doc) else CreateMarker(doc))
    case CreateMarker(doc) => Goto(s.(markers := s.markers + {doc.epochId}), p, Record(doc))
    case Record(doc) =>
      var r := WithPointer(s.db, doc.epochId, PointerOf(doc));
      Goto(if r.Success? then s.(db := r.value) else s, p, Idle)
  }

  function Apply(s: State, a: Action): State {
    match a
    case Begin(p, doc) => if PcOf(s, p).Idle? then Goto(s, p, Probe(doc)) else s
    case Act(p) => Step(s, p)
    case Crash(p) => Goto(s, p, Idle)
    case Other(st) =>
      if st.Finalized? then s
      else
        var r := Execute(s.db, st);
        if r.Success? then s.(db := r.value) else s
  }

  function Run(s: State, actions: seq<Action>): State
    decreases |actions|
  {
    if actions == [] then s else Run(Apply(s, actions[0]), actions[1..])
  }

  // -- the invariant -----------------------------------------------------------------

  ghost predicate Stored(s: State, doc: Document) {
    doc.epochId in s.logs && s.logs[doc.epochId] == doc
  }

  ghost predicate PcFine(s: State, pc: Pc) {
    match pc
    case ProbeToMark(doc) => Stored(s, doc)
    case CreateMarker(doc) => Stored(s, doc)
    case Record(doc) => Stored(s, doc) && doc.epochId in s.markers
    case ReFetch(e) => e in s.markers
    case _ => true
  }

  ghost predicate Bound(s: State, e: int)
    requires e in s.db.epochs
  {
    e in s.logs && e in s.markers && s.db.epochs[e].pointer == PointerOf(s.logs[e])
  }

  ghost predicate Inv(s: State) {
    && (forall e :: e in s.logs ==> s.logs[e].epochId == e)
    && (forall e :: e in s.markers ==> e in s.logs)
    && (forall e :: e in s.db.epochs ==> Bound(s, e))
    && (forall p :: p in s.procs ==> PcFine(s, s.procs[p]))
  }

  /** Bytes, markers and indexed pointers stay what they are. */
  ghost predicate Grows(s: State, t: State) {
    && (forall e :: e in s.logs ==> e in t.logs && t.logs[e] == s.logs[e])
    && s.markers <= t.markers
    && (forall e :: e in s.db.epochs ==> e in t.db.epochs && t.db.epochs[e].pointer == s.db.epochs[e].pointer)
  }

  lemma MoveKeepsInv(s: State, t: State, p: nat)
    requires Inv(s) && Grows(s, t) && t.procs == s.procs[p := PcOf(t, p)] && PcFine(t, PcOf(t, p))
    requires forall e :: e in t.logs ==> t.logs[e].epochId == e
    requires forall e :: e in t.markers ==> e in t.logs
    requires forall e :: e in t.db.epochs && e !in s.db.epochs ==> Bound(t, e)
    ensures Inv(t)
  {
    forall e | e in t.db.epochs ensures Bound(t, e) { if e in s.db.epochs { assert Bound(s, e); } }
    forall q | q in t.procs ensures PcFine(t, t.procs[q]) { if q != p { assert PcFine(s, s.procs[q]); } }
  }

  lemma StepKeepsInv(s: State, p: nat)
    requires Inv(s) && p in s.procs
    ensures Inv(Step(s, p)) && Grows(s, Step(s, p))
  {
    assert PcFine(s, s.procs[p]);
    var t := Step(s, p);
    if t != s { MoveKeepsInv(s, t, p); }
  }

  /** Anchoring, tombstones and the journal leave the pointers alone. */
  lemma OtherKeepsPointers(db: Db, st: Statement)
    requires !st.Finalized? && Execute(db, st).Success?
    ensures var later := Execute(db, st).value;
            later.epochs.Keys == db.epochs.Keys && forall e :: e in db.epochs ==>
              later.epochs[e].pointer == db.epochs[e].pointer
  {}

  lemma ActionKeepsInv(s: State, a: Action)
    requires Inv(s)
    ensures Inv(Apply(s, a)) && Grows(s, Apply(s, a))
  {
    match a
    case Begin(p, doc) => if PcOf(s, p).Idle? { MoveKeepsInv(s, Goto(s, p, Probe(doc)), p); }
    case Act(p) => if p in s.procs { StepKeepsInv(s, p); }
    case Crash(p) => MoveKeepsInv(s, Goto(s, p, Idle), p);
    case Other(st) =>
      if !st.Finalized? && Execute(s.db, st).Success? {
        OtherKeepsPointers(s.db, st);
        var t := s.(db := Execute(s.db, st).value);
        forall e | e in t.db.epochs ensures Bound(t, e) { assert Bound(s, e); }
        forall q | q in t.procs ensures PcFine(t, t.procs[q]) { assert PcFine(s, s.procs[q]); }
      }
  }

  lemma {:induction false} RunKeepsInv(s: State, actions: seq<Action>)
    requires Inv(s)
    ensures Inv(Run(s, actions)) && Grows(s, Run(s, actions))
    decreases |actions|
  {
    if actions != [] {
      ActionKeepsInv(s, actions[0]);
      RunKeepsInv(Apply(s, actions[0]), actions[1..]);
    }
  }

  ghost predicate Reachable(s: State) {
    exists actions :: s == Run(EMPTY, actions)
  }

  lemma ReachableInv(s: State)
    requires Reachable(s)
    ensures Inv(s)
  {
    var actions :| s == Run(EMPTY, actions);
    RunKeepsInv(EMPTY, actions);
  }

  // -- what follows ----------------------------------------------------------------------

  /** Over every run the indexed pointer is that of the stored, finalized bytes, and neither the
      pointer nor the bytes ever change. */
  lemma PointerBindsStoredBytes(s: State, actions: seq<Action>, e: int)
    requires Reachable(s) && e in s.db.epochs
    ensures e in s.logs && e in s.markers && s.logs[e].epochId == e
    ensures s.db.epochs[e].pointer == PointerOf(s.logs[e])
    ensures var t := Run(s, actions);
            && e in t.db.epochs && t.db.epochs[e].pointer == s.db.epochs[e].pointer
            && e in t.logs && t.logs[e] == s.logs[e] && e in t.markers
  {
    ReachableInv(s);
    RunKeepsInv(s, actions);
    assert Bound(s, e);
  }

  /** Whatever pointer a finalizer is about to record, it is that of the bytes under its key. */
  lemma FinalizerReturnsStoredBytes(s: State, p: nat)
    requires Reachable(s) && PcOf(s, p).Record?
    ensures var doc := PcOf(s, p).doc; doc.epochId in s.logs && s.logs[doc.epochId] == doc && doc.epochId in s.markers
  {
    ReachableInv(s);
    assert PcFine(s, s.procs[p]);
  }

  function Steps(s: State, p: nat, n: nat): State
    decreases n
  {
    if n == 0 then s else Steps(Step(s, p), p, n - 1)
  }

  lemma StepsOne(s: State, p: nat, n: nat)
    requires 0 < n
    ensures Steps(s, p, n) == Steps(Step(s, p), p, n - 1)
  {}

  /** An undisturbed retry after a crash: a finalized set is recovered from its own bytes whatever
      the new arguments are; a half-written set is completed exactly by the very same bytes, and
      other arguments change nothing; an untouched epoch is written. */
  lemma RetryOutcome(s: State, p: nat, doc: Document)
    requires Reachable(s) && PcOf(s, p).Idle?
    ensures var e := doc.epochId;
            var t := Steps(Goto(s, p, Probe(doc)), p, 3);
            e in s.markers ==> e in s.logs && t == Goto(s, p, Record(s.logs[e]))
    ensures var e := doc.epochId;
            var t := Steps(Goto(s, p, Probe(doc)), p, 6);
            && (e !in s.markers && e in s.logs && s.logs[e] == doc ==>
                  t == Goto(s.(markers := s.markers + {e}), p, Record(doc)))
            && (e !in s.markers && e in s.logs && s.logs[e] != doc ==> t == Goto(s, p, Idle))
    ensures var e := doc.epochId;
            var t := Steps(Goto(s, p, Probe(doc)), p, 5);
            e !in s.markers && e !in s.logs ==>
              t == Goto(s.(logs := s.logs[e := doc], markers := s.markers + {e}), p, Record(doc))
  {
    ReachableInv(s);
    var e := doc.epochId;
    if e in s.markers {
      RecoverySteps(s, p, doc);
    } else if e !in s.logs {
      FreshSteps(s, p, doc);
    } else {
      HalfWrittenSteps(s, p, doc);
    }
  }

  lemma {:induction false} OneStepMore(s: State, p: nat, n: nat)
    ensures Steps(s, p, n + 1) == Step(Steps(s, p, n), p)
    decreases n
  {
    if n > 0 { OneStepMore(Step(s, p), p, n - 1); }
  }

  /** The pointer of a log, field by field. */
  predicate Points(pointer: Pointer, doc: Document) {
    && pointer.closeBlock == doc.closeBlock && pointer.logDigest == doc.digest
    && pointer.weightDigest == doc.weightDigest
    && pointer.snapshotKey == "finalized/epoch=" + Decimal(doc.epochId) + "/log.json"
  }

  /** Recording indexes an epoch that is new and no gap, with the pointer of its log; everything else in the
      index and in the store stays. */
  lemma RecordIndexes(s: State, p: nat, doc: Document)
    requires PcOf(s, p) == Record(doc) && doc.epochId !in s.db.tombstones && doc.epochId !in s.db.epochs
    ensures var t := Step(s, p);
            && t == s.(db := t.db, procs := s.procs[p := Idle]) && t.db == s.db.(epochs := t.db.epochs)
            && t.db.epochs == s.db.epochs[doc.epochId := EpochRow(PointerOf(doc), None, None)]
            && Points(PointerOf(doc), doc)
  {
    PointerIsTaken(s.db, doc.epochId, PointerOf(doc));
  }

  /** One undisturbed finalizer gets there: an untouched epoch ends with its log stored, its set finalized and
      its pointer indexed; a finalized set that was never indexed is indexed from its own bytes. */
  lemma UndisturbedFinalizes(s: State, p: nat, doc: Document)
    requires Reachable(s) && PcOf(s, p).Idle? && doc.epochId !in s.db.tombstones && doc.epochId !in s.db.epochs
    ensures var e, t := doc.epochId, Steps(Goto(s, p, Probe(doc)), p, 6);
            e !in s.markers && e !in s.logs ==>
              && t.logs == s.logs[e := doc] && t.markers == s.markers + {e} && PcOf(t, p).Idle?
              && t.db.epochs == s.db.epochs[e := EpochRow(PointerOf(doc), None, None)] && Points(PointerOf(doc), doc)
    ensures var e, t := doc.epochId, Steps(Goto(s, p, Probe(doc)), p, 4);
            e in s.markers ==>
              && e in s.logs && t.logs == s.logs && t.markers == s.markers && PcOf(t, p).Idle?
              && t.db.epochs == s.db.epochs[e := EpochRow(PointerOf(s.logs[e]), None, None)]
              && Points(PointerOf(s.logs[e]), s.logs[e])
  {
    var e, start := doc.epochId, Goto(s, p, Probe(doc));
    RetryOutcome(s, p, doc);
    if e in s.markers {
      ReachableInv(s);
      OneStepMore(start, p, 3);
      RecordIndexes(Goto(s, p, Record(s.logs[e])), p, s.logs[e]);
    } else if e !in s.logs {
      OneStepMore(start, p, 5);
      RecordIndexes(Goto(s.(logs := s.logs[e := doc], markers := s.markers + {e}), p, Record(doc)), p, doc);
    }
  }

  lemma GotoTwice(s: State, p: nat, pc: Pc, next: Pc)
    ensures Goto(Goto(s, p, pc), p, next) == Goto(s, p, next)
  {
    assert s.procs[p := pc][p := next] == s.procs[p := next];
  }

  /** One step that only moves the caller. */
  lemma Walk(s: State, p: nat, pc: Pc, next: Pc, n: nat)
    requires 0 < n && Step(Goto(s, p, pc), p) == Goto(Goto(s, p, pc), p, next)
    ensures Steps(Goto(s, p, pc), p, n) == Steps(Goto(s, p, next), p, n - 1)
  {
    GotoTwice(s, p, pc, next);
  }

  lemma RecoverySteps(s: State, p: nat, doc: Document)
    requires doc.epochId in s.markers && doc.epochId in s.logs
    ensures Steps(Goto(s, p, Probe(doc)), p, 3) == Goto(s, p, Record(s.logs[doc.epochId]))
  {
    Walk(s, p, Probe(doc), ReProbe(doc.epochId), 3);
    Walk(s, p, ReProbe(doc.epochId), ReFetch(doc.epochId), 2);
    Walk(s, p, ReFetch(doc.epochId), Record(s.logs[doc.epochId]), 1);
  }

  lemma ReachesCreate(s: State, p: nat, doc: Document, n: nat)
    requires doc.epochId !in s.markers
    ensures Steps(Goto(s, p, Probe(doc)), p, n + 2) == Steps(Goto(s, p, CreateMember(doc)), p, n)
  {
    Walk(s, p, Probe(doc), ProbeToPut(doc), n + 2);
    Walk(s, p, ProbeToPut(doc), CreateMember(doc), n + 1);
  }

  lemma MarksAndRecords(s: State, p: nat, doc: Document)
    requires doc.epochId !in s.markers
    ensures Steps(Goto(s, p, ProbeToMark(doc)), p, 2) == Goto(s.(markers := s.markers + {doc.epochId}), p, Record(doc))
  {
    Walk(s, p, ProbeToMark(doc), CreateMarker(doc), 2);
    StepsOne(Goto(s, p, CreateMarker(doc)), p, 1);
    GotoTwice(s.(markers := s.markers + {doc.epochId}), p, CreateMarker(doc), Record(doc));
  }

  lemma FreshSteps(s: State, p: nat, doc: Document)
    requires doc.epochId !in s.markers && doc.epochId !in s.logs
    ensures Steps(Goto(s, p, Probe(doc)), p, 5) ==
            Goto(s.(logs := s.logs[doc.epochId := doc], markers := s.markers + {doc.epochId}), p, Record(doc))
  {
    ReachesCreate(s, p, doc, 3);
    var written := s.(logs := s.logs[doc.epochId := doc]);
    StepsOne(Goto(s, p, CreateMember(doc)), p, 3);
    GotoTwice(written, p, CreateMember(doc), ProbeToMark(doc));
    MarksAndRecords(written, p, doc);
  }

  lemma {:induction false} StepsIdle(s: State, p: nat, n: nat)
    requires PcOf(s, p).Idle?
    ensures Steps(s, p, n) == s
    decreases n
  {
    if n > 0 { StepsIdle(s, p, n - 1); }
  }

  lemma ReachesCompare(s: State, p: nat, doc: Document)
    requires doc.epochId !in s.markers && doc.epochId in s.logs
    ensures Steps(Goto(s, p, Probe(doc)), p, 6) == Steps(Goto(s, p, CompareMember(doc)), p, 3)
  {
    ReachesCreate(s, p, doc, 4);
    Walk(s, p, CreateMember(doc), CompareMember(doc), 4);
  }

  lemma HalfWrittenSteps(s: State, p: nat, doc: Document)
    requires doc.epochId !in s.markers && doc.epochId in s.logs
    ensures Steps(Goto(s, p, Probe(doc)), p, 6) ==
            if s.logs[doc.epochId] == doc then Goto(s.(markers := s.markers + {doc.epochId}), p, Record(doc))
            else Goto(s, p, Idle)
  {
    ReachesCompare(s, p, doc);
    if s.logs[doc.epochId] == doc {
      Walk(s, p, CompareMember(doc), ProbeToMark(doc), 3);
      MarksAndRecords(s, p, doc);
    } else {
      Walk(s, p, CompareMember(doc), Idle, 3);
      StepsIdle(Goto(s, p, Idle), p, 2);
    }
  }
}
