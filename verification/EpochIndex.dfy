/** The authority's durable index (vidaio/authority/index.py together with the triggers in
    vidaio/authority/migrations/): finalized pointers, outage tombstones and the journal of
    signed anchor submissions. `Db` is the abstract content of the three tables, one function
    per statement says what it does to that content, and `Index` is the object that owns them. */
module EpochIndex {
  import opened Wrappers
  import opened Hex

  type TxHash = string
  type Digest = string

  /** The signed extrinsic as `prepare_authority_anchor` returns it. */
  datatype Evidence = Evidence(txid: TxHash, signedHex: string, submitBlock: int, mortalEra: Option<int>)

  /** What the complete finalized era search found out. */
  datatype AbsenceProof = AbsenceProof(
    txid: TxHash, finalizedBlock: int, searchStart: int, searchEnd: int, mortalEra: int, confirmationDepth: int)

  /** A terminal disposition together with its evidence, which the index compares as one. */
  datatype Outcome =
    | Confirmed(block: Option<int>)
    | ExpiredAbsent(proof: AbsenceProof)
    | OperatorAcknowledged(ack: TxHash)

  datatype Submission = Submission(
    epochId: int, netuid: int, logDigest: Digest, evidence: Evidence, outcome: Option<Outcome>)
  {
    predicate Expired() { outcome.Some? && outcome.value.ExpiredAbsent? }
  }

  datatype Pointer = Pointer(closeBlock: int, snapshotKey: string, logDigest: Digest, weightDigest: Digest)

  datatype EpochRow = EpochRow(pointer: Pointer, anchorTxid: Option<TxHash>, anchorBlock: Option<int>)

  /** Journal rows are in rowid order, oldest first. */
  datatype Db = Db(epochs: map<int, EpochRow>, tombstones: set<int>, journal: seq<Submission>)

  datatype AnchorError =
    | InvalidHash | IndexConflict | Hold | LanePending | LaneTimeout | NotPending

  const EMPTY_DB := Db(map[], {}, [])

  // -- reads ---------------------------------------------------------------

  /** 0x followed by 64 lower-case hex digits. */
  predicate CanonicalHash(h: TxHash) {
    |h| == 66 && h[..2] == "0x" && forall i :: 2 <= i < 66 ==> h[i] in DIGITS
  }

  /** The rowid position of a hash, or the journal's length when it is absent. */
  function RowOf(journal: seq<Submission>, txid: TxHash): (r: nat)
    ensures r <= |journal|
    ensures r < |journal| ==> journal[r].evidence.txid == txid
    ensures forall k :: 0 <= k < |journal| && (r < k || r == |journal|) ==> journal[k].evidence.txid != txid
  {
    if journal == [] then 0
    else if journal[|journal| - 1].evidence.txid == txid then |journal| - 1
    else
      var r := RowOf(journal[..|journal| - 1], txid);
      if r == |journal| - 1 then |journal| else r
  }

  /** The newest row of an epoch, or the journal's length when it has none. */
  function NewestOf(journal: seq<Submission>, epochId: int): (r: nat)
    ensures r <= |journal|
    ensures r < |journal| ==> journal[r].epochId == epochId
    ensures forall k :: 0 <= k < |journal| && (r < k || r == |journal|) ==> journal[k].epochId != epochId
  {
    if journal == [] then 0
    else if journal[|journal| - 1].epochId == epochId then |journal| - 1
    else
      var r := NewestOf(journal[..|journal| - 1], epochId);
      if r == |journal| - 1 then |journal| else r
  }

  function ByHash(db: Db, txid: TxHash): Option<Submission> {
    var r := RowOf(db.journal, txid);
    if r < |db.journal| then Some(db.journal[r]) else None
  }

  function Newest(db: Db, epochId: int): Option<Submission> {
    var r := NewestOf(db.journal, epochId);
    if r < |db.journal| then Some(db.journal[r]) else None
  }

  /** Tombstoned epochs stop being served. */
  function Get(db: Db, epochId: int): Option<EpochRow> {
    if epochId in db.epochs && epochId !in db.tombstones then Some(db.epochs[epochId]) else None
  }

  // -- writes --------------------------------------------------------------

  function WithPointer(db: Db, epochId: int, pointer: Pointer): Result<Db, AnchorError> {
    if epochId in db.tombstones then Failure(IndexConflict)
    else if epochId in db.epochs then
      if db.epochs[epochId].pointer == pointer then Success(db) else Failure(IndexConflict)
    else Success(db.(epochs := db.epochs[epochId := EpochRow(pointer, None, None)]))
  }

  function WithAnchor(db: Db, epochId: int, txid: TxHash, block: Option<int>): Result<Db, AnchorError> {
    var row := Get(db, epochId);
    if row.None? then Failure(IndexConflict)
    else if row.value.anchorTxid.Some? then
      if row.value.anchorTxid.value == txid then Success(db) else Failure(IndexConflict)
    else Success(db.(epochs := db.epochs[epochId := EpochRow(row.value.pointer, Some(txid), block)]))
  }

  /** Only an indexed, unanchored epoch may become an outage gap. */
  function WithTombstone(db: Db, epochId: int): Result<Db, AnchorError> {
    if epochId in db.tombstones then Success(db)
    else if epochId !in db.epochs || db.epochs[epochId].anchorTxid.Some? then Failure(IndexConflict)
    else Success(db.(tombstones := db.tombstones + {epochId}))
  }

  /** The insert trigger: an indexed, unanchored, untombstoned epoch with this very digest. */
  predicate MayBind(db: Db, epochId: int, logDigest: Digest) {
    && Get(db, epochId).Some?
    && db.epochs[epochId].pointer.logDigest == logDigest
    && db.epochs[epochId].anchorTxid.None?
    && forall i :: 0 <= i < |db.journal| && db.journal[i].epochId == epochId ==> db.journal[i].Expired()
  }

  function WithSubmission(db: Db, epochId: int, netuid: int, logDigest: Digest, evidence: Evidence)
    : Result<Db, AnchorError>
  {
    var existing := ByHash(db, evidence.txid);
    var newest := Newest(db, epochId);
    if !CanonicalHash(evidence.txid) then Failure(InvalidHash)
    else if existing.Some? then
      if existing.value.(outcome := None) == Submission(epochId, netuid, logDigest, evidence, None)
      then Success(db) else Failure(IndexConflict)
    else if newest.Some? && !newest.value.Expired() then Failure(IndexConflict)
    else if !MayBind(db, epochId, logDigest) then Failure(IndexConflict)
    else Success(db.(journal := db.journal + [Submission(epochId, netuid, logDigest, evidence, None)]))
  }

  /** The evidence each terminal disposition must bring. */
  predicate Proves(db: Db, row: Submission, outcome: Outcome) {
    match outcome
    case Confirmed(block) =>
      var epoch := Get(db, row.epochId);
      epoch.Some? && block.Some? && epoch.value.anchorTxid == Some(row.evidence.txid) &&
        epoch.value.anchorBlock == block
    case ExpiredAbsent(p) =>
      && row.evidence.mortalEra == Some(p.mortalEra) && 0 < p.mortalEra && 0 <= p.confirmationDepth
      && p.txid == row.evidence.txid && p.searchStart == row.evidence.submitBlock
      && p.searchEnd == p.searchStart + p.mortalEra + p.confirmationDepth && p.searchEnd < p.finalizedBlock
    case OperatorAcknowledged(ack) => ack == row.evidence.txid
  }

  function WithOutcome(db: Db, txid: TxHash, outcome: Outcome): Result<Db, AnchorError> {
    var r := RowOf(db.journal, txid);
    if r == |db.journal| then Failure(IndexConflict)
    else if db.journal[r].outcome.Some? then
      if db.journal[r].outcome.value == outcome then Success(db) else Failure(IndexConflict)
    else if !Proves(db, db.journal[r], outcome) then Failure(IndexConflict)
    else Success(db.(journal := db.journal[r := db.journal[r].(outcome := Some(outcome))]))
  }

  // -- what every statement keeps --------------------------------------------

  /** Hashes are unique, and every row of an epoch but its newest is proven expired. */
  predicate JournalOk(db: Db) {
    && (forall i, k :: 0 <= i < k < |db.journal| ==> db.journal[i].evidence.txid != db.journal[k].evidence.txid)
    && (forall i, k :: 0 <= i < k < |db.journal| && db.journal[i].epochId == db.journal[k].epochId ==>
          db.journal[i].Expired())
  }

  /** Every row binds an indexed epoch; a confirmed row is the anchor of its epoch, block included. */
  predicate RowOk(db: Db, row: Submission) {
    && row.epochId in db.epochs
    && row.logDigest == db.epochs[row.epochId].pointer.logDigest
    && (row.outcome.Some? && row.outcome.value.Confirmed? ==>
          && row.outcome.value.block.Some?
          && db.epochs[row.epochId].anchorTxid == Some(row.evidence.txid)
          && db.epochs[row.epochId].anchorBlock == row.outcome.value.block)
  }

  predicate TombstonesOk(db: Db) {
    forall e :: e in db.tombstones ==> e in db.epochs && db.epochs[e].anchorTxid.None?
  }

  predicate IndexOk(db: Db) {
    && JournalOk(db)
    && TombstonesOk(db)
    && forall i :: 0 <= i < |db.journal| ==> RowOk(db, db.journal[i])
  }

  /** `later` only adds to `db`: pointers, anchors, tombstones, signed evidence and terminal
      outcomes are never rewritten and never disappear. */
  predicate Extends(db: Db, later: Db) {
    && (forall e :: e in db.epochs ==>
          && e in later.epochs && later.epochs[e].pointer == db.epochs[e].pointer
          && (db.epochs[e].anchorTxid.Some? ==> later.epochs[e] == db.epochs[e]))
    && db.tombstones <= later.tombstones
    && |db.journal| <= |later.journal|
    && forall i :: 0 <= i < |db.journal| ==>
         && later.journal[i].(outcome := db.journal[i].outcome) == db.journal[i]
         && (db.journal[i].outcome.Some? ==> later.journal[i] == db.journal[i])
  }

  datatype Statement =
    | Finalized(epochId: int, pointer: Pointer)
    | Anchored(epochId: int, txid: TxHash, block: Option<int>)
    | Tombstoned(epochId: int)
    | Submitted(epochId: int, netuid: int, logDigest: Digest, evidence: Evidence)
    | Finished(txid: TxHash, outcome: Outcome)

  function Execute(db: Db, st: Statement): Result<Db, AnchorError> {
    match st
    case Finalized(e, p) => WithPointer(db, e, p)
    case Anchored(e, t, b) => WithAnchor(db, e, t, b)
    case Tombstoned(e) => WithTombstone(db, e)
    case Submitted(e, n, d, ev) => WithSubmission(db, e, n, d, ev)
    case Finished(t, o) => WithOutcome(db, t, o)
  }

  lemma FinalizeKeepsIndex(db: Db, e: int, p: Pointer)
    requires IndexOk(db) && WithPointer(db, e, p).Success?
    ensures var later := WithPointer(db, e, p).value; IndexOk(later) && Extends(db, later)
  {
    var later := WithPointer(db, e, p).value;
    forall i | 0 <= i < |db.journal| ensures RowOk(later, later.journal[i]) { assert RowOk(db, db.journal[i]); }
  }

  lemma AnchorKeepsIndex(db: Db, e: int, txid: TxHash, block: Option<int>)
    requires IndexOk(db) && WithAnchor(db, e, txid, block).Success?
    ensures var later := WithAnchor(db, e, txid, block).value; IndexOk(later) && Extends(db, later)
  {
    var later := WithAnchor(db, e, txid, block).value;
    forall i | 0 <= i < |db.journal| ensures RowOk(later, later.journal[i]) { assert RowOk(db, db.journal[i]); }
  }

  lemma TombstoneKeepsIndex(db: Db, e: int)
    requires IndexOk(db) && WithTombstone(db, e).Success?
    ensures var later := WithTombstone(db, e).value; IndexOk(later) && Extends(db, later)
  {
    var later := WithTombstone(db, e).value;
    forall i | 0 <= i < |db.journal| ensures RowOk(later, later.journal[i]) { assert RowOk(db, db.journal[i]); }
  }

  lemma SubmitKeepsIndex(db: Db, e: int, n: int, d: Digest, ev: Evidence)
    requires IndexOk(db) && WithSubmission(db, e, n, d, ev).Success?
    ensures var later := WithSubmission(db, e, n, d, ev).value; IndexOk(later) && Extends(db, later)
  {
    var later := WithSubmission(db, e, n, d, ev).value;
    if later != db {
      assert MayBind(db, e, d) && RowOf(db.journal, ev.txid) == |db.journal|;
      assert later.journal[..|db.journal|] == db.journal;
      forall i | 0 <= i < |db.journal| ensures RowOk(later, later.journal[i]) {
        assert later.journal[i] == db.journal[i] && RowOk(db, db.journal[i]);
      }
      assert RowOk(later, later.journal[|db.journal|]);
    }
  }

  lemma FinishKeepsIndex(db: Db, txid: TxHash, outcome: Outcome)
    requires IndexOk(db) && WithOutcome(db, txid, outcome).Success?
    ensures var later := WithOutcome(db, txid, outcome).value; IndexOk(later) && Extends(db, later)
  {
    var later := WithOutcome(db, txid, outcome).value;
    var r := RowOf(db.journal, txid);
    forall i | 0 <= i < |db.journal| ensures RowOk(later, later.journal[i]) {
      assert RowOk(db, db.journal[i]) && RowOk(db, db.journal[r]);
    }
  }

  lemma StatementKeepsIndex(db: Db, st: Statement)
    requires IndexOk(db) && Execute(db, st).Success?
    ensures IndexOk(Execute(db, st).value) && Extends(db, Execute(db, st).value)
  {
    match st
    case Finalized(e, p) => FinalizeKeepsIndex(db, e, p);
    case Anchored(e, t, b) => AnchorKeepsIndex(db, e, t, b);
    case Tombstoned(e) => TombstoneKeepsIndex(db, e);
    case Submitted(e, n, d, ev) => SubmitKeepsIndex(db, e, n, d, ev);
    case Finished(t, o) => FinishKeepsIndex(db, t, o);
  }

  /** Runs statements one after the other; a refused one changes nothing. */
  function ExecuteAll(db: Db, sts: seq<Statement>): Db
    decreases |sts|
  {
    if sts == [] then db
    else
      var r := Execute(db, sts[0]);
      ExecuteAll(if r.Success? then r.value else db, sts[1..])
  }

  lemma ExtendsTransitive(a: Db, b: Db, c: Db)
    requires Extends(a, b) && Extends(b, c)
    ensures Extends(a, c)
  {
    forall i | 0 <= i < |a.journal|
      ensures c.journal[i].(outcome := a.journal[i].outcome) == a.journal[i]
      ensures a.journal[i].outcome.Some? ==> c.journal[i] == a.journal[i]
    {
      assert b.journal[i].(outcome := a.journal[i].outcome) == a.journal[i];
      assert c.journal[i].(outcome := b.journal[i].outcome) == b.journal[i];
    }
  }

  /** Whatever is thrown at the index from an empty start, it stays consistent and append-only. */
  lemma {:induction false} HistoryIsAppendOnly(db: Db, sts: seq<Statement>)
    requires IndexOk(db)
    ensures IndexOk(ExecuteAll(db, sts)) && Extends(db, ExecuteAll(db, sts))
    decreases |sts|
  {
    if sts != [] {
      var r := Execute(db, sts[0]);
      var next := if r.Success? then r.value else db;
      if r.Success? { StatementKeepsIndex(db, sts[0]); }
      HistoryIsAppendOnly(next, sts[1..]);
      ExtendsTransitive(db, next, ExecuteAll(next, sts[1..]));
    }
  }

  // -- the statements in terms of the tables alone -------------------------------

  /** 0x and 64 lower-case hex digits, character by character. */
  predicate HexHash(h: TxHash) {
    |h| == 66 && h[0] == '0' && h[1] == 'x' && forall i :: 2 <= i < 66 ==> IsHex(h[i])
  }

  lemma HashesAreHex(h: TxHash)
    ensures CanonicalHash(h) <==> HexHash(h)
  {
    forall c: char ensures c in DIGITS <==> IsHex(c) { HexDigits(c); }
    if |h| == 66 { assert h[..2] == [h[0], h[1]]; }
  }

  /** Indexed with this log digest, served, and not anchored. */
  predicate Open(db: Db, e: int, d: Digest) {
    && e in db.epochs && e !in db.tombstones && db.epochs[e].anchorTxid.None?
    && db.epochs[e].pointer.logDigest == d
  }

  /** The journal has no row with this hash. */
  predicate Unused(db: Db, txid: TxHash) {
    forall i :: 0 <= i < |db.journal| ==> db.journal[i].evidence.txid != txid
  }

  /** Whatever was signed for the epoch before is proven to have expired. */
  predicate AllExpired(db: Db, e: int) {
    forall i :: 0 <= i < |db.journal| && db.journal[i].epochId == e ==>
      db.journal[i].outcome.Some? && db.journal[i].outcome.value.ExpiredAbsent?
  }

  /** A new hash is recorded exactly for an open epoch all of whose earlier submissions expired, and
      recording appends one open row; so a proven expiry always makes room for the next submission. */
  lemma NewHashIsRecorded(db: Db, e: int, n: int, d: Digest, ev: Evidence)
    requires IndexOk(db) && Unused(db, ev.txid)
    ensures var r := WithSubmission(db, e, n, d, ev);
            && (r.Success? <==> HexHash(ev.txid) && Open(db, e, d) && AllExpired(db, e))
            && (r.Success? ==> r.value == db.(journal := db.journal + [Submission(e, n, d, ev, None)]))
  {
    HashesAreHex(ev.txid);
  }

  /** A hash that has a row is only accepted again with the very same evidence, and then nothing changes. */
  lemma OldHashIsKept(db: Db, e: int, n: int, d: Digest, ev: Evidence, i: nat)
    requires IndexOk(db) && i < |db.journal| && db.journal[i].evidence.txid == ev.txid
    ensures var r, row := WithSubmission(db, e, n, d, ev), db.journal[i];
            && (r.Success? <==> HexHash(ev.txid) && row.epochId == e && row.netuid == n && row.logDigest == d
                                && row.evidence == ev)
            && (r.Success? ==> r.value == db)
  {
    HashesAreHex(ev.txid);
    assert RowOf(db.journal, ev.txid) == i;
  }

  /** A pointer is taken for an epoch that is new, or was indexed with it; a gap takes none. */
  lemma PointerIsTaken(db: Db, e: int, p: Pointer)
    ensures var r := WithPointer(db, e, p);
            && (r.Success? <==> e !in db.tombstones && (e in db.epochs ==> db.epochs[e].pointer == p))
            && (r.Success? ==> r.value.epochs.Keys == db.epochs.Keys + {e} && r.value.epochs[e].pointer == p)
            && (r.Success? && e !in db.epochs ==> r.value.epochs[e] == EpochRow(p, None, None))
            && (r.Success? ==> forall x :: x in db.epochs ==> r.value.epochs[x] == db.epochs[x])
            && (r.Success? ==> r.value.tombstones == db.tombstones && r.value.journal == db.journal)
  {}

  /** An anchor is taken by a served epoch that has none, or has this one. */
  lemma AnchorIsTaken(db: Db, e: int, txid: TxHash, block: Option<int>)
    ensures var r := WithAnchor(db, e, txid, block);
            && (r.Success? <==> && e in db.epochs && e !in db.tombstones
                                && db.epochs[e].anchorTxid in {None, Some(txid)})
            && (r.Success? ==> r.value.epochs.Keys == db.epochs.Keys && r.value.epochs[e].anchorTxid == Some(txid)
                               && r.value.epochs[e].pointer == db.epochs[e].pointer)
            && (r.Success? ==> r.value.epochs[e].anchorBlock ==
                                 if db.epochs[e].anchorTxid.None? then block else db.epochs[e].anchorBlock)
            && (r.Success? ==> forall x :: x in db.epochs && x != e ==> r.value.epochs[x] == db.epochs[x])
            && (r.Success? ==> r.value.tombstones == db.tombstones && r.value.journal == db.journal)
  {}

  /** A gap is marked for an epoch that is one already, or is indexed without an anchor. */
  lemma GapIsMarked(db: Db, e: int)
    ensures var r := WithTombstone(db, e);
            && (r.Success? <==> e in db.tombstones || (e in db.epochs && db.epochs[e].anchorTxid.None?))
            && (r.Success? ==> r.value == db.(tombstones := db.tombstones + {e}))
  {
    if e in db.tombstones { assert db.tombstones + {e} == db.tombstones; }
  }

  /** The evidence of each disposition: the served anchor at that very block; a finalized search of the
      whole mortal era and the confirmation depth behind it; the operator naming the hash. */
  predicate Evident(db: Db, row: Submission, outcome: Outcome) {
    match outcome
    case Confirmed(block) =>
      && row.epochId in db.epochs && row.epochId !in db.tombstones && block.Some?
      && db.epochs[row.epochId].anchorTxid == Some(row.evidence.txid) && db.epochs[row.epochId].anchorBlock == block
    case ExpiredAbsent(p) =>
      && row.evidence.mortalEra.Some? && 0 < row.evidence.mortalEra.value && 0 <= p.confirmationDepth
      && row.evidence.submitBlock + row.evidence.mortalEra.value + p.confirmationDepth < p.finalizedBlock
      && p == AbsenceProof(row.evidence.txid, p.finalizedBlock, row.evidence.submitBlock,
                           row.evidence.submitBlock + row.evidence.mortalEra.value + p.confirmationDepth,
                           row.evidence.mortalEra.value, p.confirmationDepth)
    case OperatorAcknowledged(ack) => ack == row.evidence.txid
  }

  /** An open row takes an outcome exactly with its evidence, a closed one only its own again. */
  lemma OutcomeIsTaken(db: Db, i: nat, outcome: Outcome)
    requires IndexOk(db) && i < |db.journal|
    ensures var row := db.journal[i];
            var r := WithOutcome(db, row.evidence.txid, outcome);
            && (r.Success? <==> if row.outcome.None? then Evident(db, row, outcome) else row.outcome == Some(outcome))
            && (r.Success? ==> r.value == db.(journal := db.journal[i := row.(outcome := Some(outcome))]))
  {
    var row := db.journal[i];
    assert RowOf(db.journal, row.evidence.txid) == i;
    if row.outcome == Some(outcome) { assert db.journal[i := row.(outcome := Some(outcome))] == db.journal; }
  }

  lemma UnknownHashHasNoOutcome(db: Db, txid: TxHash, outcome: Outcome)
    requires Unused(db, txid)
    ensures WithOutcome(db, txid, outcome).Failure?
  {}

  // -- the object that owns the tables -----------------------------------------

  class Index {
    var epochs: map<int, EpochRow>
    var tombstones: set<int>
    var journal: seq<Submission>

    function Content(): Db
      reads this
    {
      Db(epochs, tombstones, journal)
    }

    constructor ()
      ensures Content() == EMPTY_DB && IndexOk(Content())
    {
      epochs, tombstones, journal := map[], {}, [];
    }

    method RecordFinalized(epochId: int, pointer: Pointer) returns (r: Result<EpochRow, AnchorError>)
      modifies this
      ensures match WithPointer(old(Content()), epochId, pointer)
              case Success(db) => Content() == db && r == Success(db.epochs[epochId])
              case Failure(e) => Content() == old(Content()) && r == Failure(e)
      ensures old(IndexOk(Content())) ==> IndexOk(Content()) && Extends(old(Content()), Content())
    {
      ghost var before := Content();
      if epochId in tombstones {
        return Failure(IndexConflict);
      }
      if epochId in epochs {
        return if epochs[epochId].pointer == pointer then Success(epochs[epochId]) else Failure(IndexConflict);
      }
      epochs := epochs[epochId := EpochRow(pointer, None, None)];
      if IndexOk(before) {
        FinalizeKeepsIndex(before, epochId, pointer);
      }
      return Success(epochs[epochId]);
    }

    method SetAnchor(epochId: int, txid: TxHash, block: Option<int>) returns (r: Result<EpochRow, AnchorError>)
      modifies this
      ensures match WithAnchor(old(Content()), epochId, txid, block)
              case Success(db) => Content() == db && r == Success(db.epochs[epochId])
              case Failure(e) => Content() == old(Content()) && r == Failure(e)
      ensures old(IndexOk(Content())) ==> IndexOk(Content()) && Extends(old(Content()), Content())
    {
      ghost var before := Content();
      var record := Get(Content(), epochId);
      if record.None? {
        return Failure(IndexConflict);
      }
      if record.value.anchorTxid.Some? {
        return if record.value.anchorTxid.value == txid then Success(record.value) else Failure(IndexConflict);
      }
      epochs := epochs[epochId := record.value.(anchorTxid := Some(txid), anchorBlock := block)];
      if IndexOk(before) {
        AnchorKeepsIndex(before, epochId, txid, block);
      }
      return Success(epochs[epochId]);
    }

    method MarkGapTombstone(epochId: int) returns (r: Result<(), AnchorError>)
      modifies this
      ensures match WithTombstone(old(Content()), epochId)
              case Success(db) => Content() == db && r.Success?
              case Failure(e) => Content() == old(Content()) && r == Failure(e)
      ensures old(IndexOk(Content())) ==> IndexOk(Content()) && Extends(old(Content()), Content())
    {
      ghost var before := Content();
      if epochId in tombstones {
        return Success(());
      }
      if epochId !in epochs || epochs[epochId].anchorTxid.Some? {
        return Failure(IndexConflict);
      }
      tombstones := tombstones + {epochId};
      if IndexOk(before) {
        TombstoneKeepsIndex(before, epochId);
      }
      return Success(());
    }

    method RecordAnchorSubmission(epochId: int, netuid: int, logDigest: Digest, evidence: Evidence)
      returns (r: Result<Submission, AnchorError>)
      modifies this
      ensures match WithSubmission(old(Content()), epochId, netuid, logDigest, evidence)
              case Success(db) => Content() == db && r.Success? && Some(r.value) == ByHash(db, evidence.txid)
              case Failure(e) => Content() == old(Content()) && r == Failure(e)
      ensures old(IndexOk(Content())) ==> IndexOk(Content()) && Extends(old(Content()), Content())
    {
      ghost var before := Content();
      if !CanonicalHash(evidence.txid) {
        return Failure(InvalidHash);
      }
      var existing := ByHash(Content(), evidence.txid);
      if existing.Some? {
        var row := existing.value;
        if row.epochId != epochId || row.netuid != netuid || row.logDigest != logDigest || row.evidence != evidence {
          return Failure(IndexConflict);
        }
        return Success(row);
      }
      var previous := Newest(Content(), epochId);
      if previous.Some? && !previous.value.Expired() {
        return Failure(IndexConflict);
      }
      if !MayBind(Content(), epochId, logDigest) {
        return Failure(IndexConflict);
      }
      journal := journal + [Submission(epochId, netuid, logDigest, evidence, None)];
      if IndexOk(before) {
        SubmitKeepsIndex(before, epochId, netuid, logDigest, evidence);
      }
      return Success(journal[|journal| - 1]);
    }

    method FinishAnchorSubmission(txid: TxHash, outcome: Outcome) returns (r: Result<Submission, AnchorError>)
      modifies this
      ensures match WithOutcome(old(Content()), txid, outcome)
              case Success(db) => Content() == db && r.Success? && Some(r.value) == ByHash(db, txid)
              case Failure(e) => Content() == old(Content()) && r == Failure(e)
      ensures old(IndexOk(Content())) ==> IndexOk(Content()) && Extends(old(Content()), Content())
    {
      ghost var before := Content();
      var at := RowOf(journal, txid);
      if at == |journal| {
        return Failure(IndexConflict);
      }
      if journal[at].outcome.Some? {
        return if journal[at].outcome.value == outcome then Success(journal[at]) else Failure(IndexConflict);
      }
      if !Proves(Content(), journal[at], outcome) {
        return Failure(IndexConflict);
      }
      journal := journal[at := journal[at].(outcome := Some(outcome))];
      if IndexOk(before) {
        FinishKeepsIndex(before, txid, outcome);
      }
      r := Success(journal[at]);
    }
  }
}
