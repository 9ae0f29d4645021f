/** The append-only store of audit reports and the aggregate over it (vidaio/audit_api/store.py,
    vidaio/audit_api/aggregate.py, `overall_status` of vidaio/auditor/report.py). The report digest is
    that of the canonical form, in which the verdicts are sorted, and injective on it; so the canonical
    form of a report stands for its identity. */
module VerdictStore {
  import opened Wrappers
  import opened Ordering

  datatype Kind = PASS | FAIL | SKIP

  datatype Status = DISPUTED | INCONCLUSIVE | CLEAN

  datatype Mode = Beacon | OwnAudit

  /** One verdict. `rank` is its place in the order of source, challenge, item and bundle, `body` all the
      rest of it; two verdicts may have one rank. */
  datatype Item = Item(rank: int, kind: Kind, body: string)

  datatype Report = Report(
    hotkey: string, epochId: int, mode: Mode, items: seq<Item>, weight: Kind, earnings: seq<Item>, body: string)

  datatype Verdict = Unaudited | Disputed | Clean | Inconclusive

  /** A persisted report with its recomputed verdict. */
  datatype Stored = Stored(report: Report, overall: Status)

  datatype Conflict = Conflict(epochId: int, kept: Report, rejected: Report, rejectedOverall: Status)

  datatype Outcome = New | Duplicate | ConflictKept

  datatype Tables = Tables(reports: seq<Stored>, conflicts: seq<Conflict>)

  const EMPTY := Tables([], [])

  // -- one report ----------------------------------------------------------------------

  predicate AnyOf(verdicts: seq<Item>, kind: Kind) { exists x :: x in verdicts && x.kind == kind }

  /** A provable fault in any of the three channels. */
  predicate HasFault(r: Report) { r.weight == FAIL || AnyOf(r.items, FAIL) || AnyOf(r.earnings, FAIL) }

  predicate HasGap(r: Report) { r.weight == SKIP || AnyOf(r.items, SKIP) || AnyOf(r.earnings, SKIP) }

  method Any(verdicts: seq<Item>, kind: Kind) returns (b: bool)
    ensures b <==> AnyOf(verdicts, kind)
  {
    b := false;
    for i := 0 to |verdicts|
      invariant b <==> exists k :: 0 <= k < i && verdicts[k].kind == kind
    {
      if verdicts[i].kind == kind {
        b := true;
      }
    }
    if b {
      var k :| 0 <= k < |verdicts| && verdicts[k].kind == kind;
      assert verdicts[k] in verdicts;
    }
  }

  function RankOf(x: Item): int { x.rank }

  /** What the digest is taken of: both lists sorted, stably. */
  function Canonical(r: Report): Report {
    r.(items := SortBy(r.items, RankOf), earnings := SortBy(r.earnings, RankOf))
  }

  lemma SortKeepsKinds(verdicts: seq<Item>, kind: Kind)
    ensures AnyOf(SortBy(verdicts, RankOf), kind) <==> AnyOf(verdicts, kind)
  {
    forall x ensures x in SortBy(verdicts, RankOf) <==> x in verdicts { SortKeepsMembers(verdicts, RankOf, x); }
  }

  /** The canonical form tells everything of a report but the order of its verdicts. */
  lemma CanonicalTells(a: Report, b: Report)
    requires Canonical(a) == Canonical(b)
    ensures a == b.(items := a.items, earnings := a.earnings)
    ensures multiset(a.items) == multiset(b.items) && multiset(a.earnings) == multiset(b.earnings)
  {
    assert multiset(SortBy(a.items, RankOf)) == multiset(SortBy(b.items, RankOf));
    assert multiset(SortBy(a.earnings, RankOf)) == multiset(SortBy(b.earnings, RankOf));
  }

  /** Sorting keeps the verdict of a report and whose it is. */
  lemma CanonicalKeeps(r: Report)
    ensures HasFault(Canonical(r)) <==> HasFault(r)
    ensures HasGap(Canonical(r)) <==> HasGap(r)
    ensures Overall(Canonical(r)) == Overall(r)
  {
    SortKeepsKinds(r.items, FAIL);
    SortKeepsKinds(r.items, SKIP);
    SortKeepsKinds(r.earnings, FAIL);
    SortKeepsKinds(r.earnings, SKIP);
  }

  function Overall(r: Report): Status {
    if HasFault(r) then DISPUTED else if HasGap(r) then INCONCLUSIVE else CLEAN
  }

  /** In the weight verdict, in a media verdict or in an earning verdict. */
  predicate SomeVerdict(r: Report, kind: Kind) {
    || r.weight == kind
    || (exists i :: 0 <= i < |r.items| && r.items[i].kind == kind)
    || (exists i :: 0 <= i < |r.earnings| && r.earnings[i].kind == kind)
  }

  lemma FaultsAndGaps(r: Report)
    ensures HasFault(r) <==> SomeVerdict(r, FAIL)
    ensures HasGap(r) <==> SomeVerdict(r, SKIP)
  {
    AnyAt(r.items, FAIL);
    AnyAt(r.items, SKIP);
    AnyAt(r.earnings, FAIL);
    AnyAt(r.earnings, SKIP);
  }

  lemma AnyAt(verdicts: seq<Item>, kind: Kind)
    ensures AnyOf(verdicts, kind) <==> exists i :: 0 <= i < |verdicts| && verdicts[i].kind == kind
  {
    if i :| 0 <= i < |verdicts| && verdicts[i].kind == kind { assert verdicts[i] in verdicts; }
    if x :| x in verdicts && x.kind == kind {
      var i :| 0 <= i < |verdicts| && verdicts[i] == x;
    }
  }

  /** `overall_status`: a chain of tests, faults before gaps. */
  method OverallStatus(r: Report) returns (status: Status)
    ensures status == Overall(r)
    ensures status == DISPUTED <==> SomeVerdict(r, FAIL)
    ensures status == CLEAN <==> !SomeVerdict(r, FAIL) && !SomeVerdict(r, SKIP)
  {
    FaultsAndGaps(r);
    if r.weight == FAIL { return DISPUTED; }
    var found := Any(r.items, FAIL);
    if found { return DISPUTED; }
    found := Any(r.earnings, FAIL);
    if found { return DISPUTED; }
    if r.weight == SKIP { return INCONCLUSIVE; }
    found := Any(r.earnings, SKIP);
    if found { return INCONCLUSIVE; }
    found := Any(r.items, SKIP);
    return if found then INCONCLUSIVE else CLEAN;
  }

  // -- the tables -------------------------------------------------------------------------

  predicate SamePair(a: Report, b: Report) { a.hotkey == b.hotkey && a.epochId == b.epochId && a.mode == b.mode }

  /** The row of this very report, or of this pair, or the number of rows. */
  function RowOf(reports: seq<Stored>, r: Report): (n: nat)
    ensures n <= |reports| && (n < |reports| ==> reports[n].report == r)
    ensures n == |reports| ==> forall i :: 0 <= i < |reports| ==> reports[i].report != r
  {
    if reports == [] then 0 else if reports[0].report == r then 0 else RowOf(reports[1..], r) + 1
  }

  function PairRowOf(reports: seq<Stored>, r: Report): (n: nat)
    ensures n <= |reports| && (n < |reports| ==> SamePair(reports[n].report, r))
    ensures n == |reports| ==> forall i :: 0 <= i < |reports| ==> !SamePair(reports[i].report, r)
  {
    if reports == [] then 0 else if SamePair(reports[0].report, r) then 0 else PairRowOf(reports[1..], r) + 1
  }

  function Recorded(t: Tables, posted: Report): Tables {
    var r := Canonical(posted);
    var prior := PairRowOf(t.reports, r);
    if RowOf(t.reports, r) < |t.reports| then t
    else if prior < |t.reports| then
      t.(conflicts := t.conflicts + [Conflict(r.epochId, t.reports[prior].report, r, Overall(r))])
    else t.(reports := t.reports + [Stored(r, Overall(r))])
  }

  function RecordedAll(t: Tables, rs: seq<Report>): Tables
    decreases |rs|
  {
    if rs == [] then t else RecordedAll(Recorded(t, rs[0]), rs[1..])
  }

  // -- the aggregate --------------------------------------------------------------------------

  function ForEpoch(reports: seq<Stored>, e: int): (r: seq<Stored>)
    ensures forall x :: x in r <==> x in reports && x.report.epochId == e
  {
    if reports == [] then []
    else
      assert reports == [reports[0]] + reports[1..];
      (if reports[0].report.epochId == e then [reports[0]] else []) + ForEpoch(reports[1..], e)
  }

  ghost predicate DisputedConflictIn(t: Tables, e: int) {
    exists i :: 0 <= i < |t.conflicts| && t.conflicts[i].epochId == e && t.conflicts[i].rejectedOverall == DISPUTED
  }

  ghost predicate Holds(reports: seq<Stored>, e: int, status: Status) {
    exists i :: 0 <= i < |reports| && reports[i].report.epochId == e && Overall(reports[i].report) == status
  }

  ghost predicate Reported(reports: seq<Stored>, e: int) {
    exists i :: 0 <= i < |reports| && reports[i].report.epochId == e
  }

  ghost function VerdictOf(t: Tables, e: int): Verdict {
    if !Reported(t.reports, e) then Unaudited
    else if Holds(t.reports, e, DISPUTED) || DisputedConflictIn(t, e) then Disputed
    else if Holds(t.reports, e, CLEAN) then Clean
    else Inconclusive
  }

  /** The epochs that the aggregate calls DISPUTED. */
  ghost function MarkedDisputed(t: Tables): set<int> {
    set i | 0 <= i < |t.reports| && VerdictOf(t, t.reports[i].report.epochId) == Disputed :: t.reports[i].report.epochId
  }

  /** `epoch_status`: counts over the recomputed verdicts, then one chain of tests. */
  method EpochStatus(reports: seq<Stored>, disputedConflicts: nat) returns (v: Verdict)
    ensures v == if reports == [] then Unaudited
                 else if disputedConflicts > 0
                         || exists i :: 0 <= i < |reports| && Overall(reports[i].report) == DISPUTED
                 then Disputed
                 else if exists i :: 0 <= i < |reports| && Overall(reports[i].report) == CLEAN then Clean
                 else Inconclusive
  {
    var clean, disputed := 0, 0;
    for i := 0 to |reports|
      invariant clean > 0 <==> exists k :: 0 <= k < i && Overall(reports[k].report) == CLEAN
      invariant disputed > 0 <==> exists k :: 0 <= k < i && Overall(reports[k].report) == DISPUTED
      invariant clean >= 0 && disputed >= 0
    {
      var status := OverallStatus(reports[i].report);
      if status == CLEAN { clean := clean + 1; }
      if status == DISPUTED { disputed := disputed + 1; }
    }
    return if reports == [] then Unaudited
           else if disputed > 0 || disputedConflicts > 0 then Disputed
           else if clean > 0 then Clean else Inconclusive;
  }

  class AuditResultsStore {
    var reports: seq<Stored>
    var conflicts: seq<Conflict>

    function Content(): Tables
      reads this
    {
      Tables(reports, conflicts)
    }

    constructor ()
      ensures Content() == EMPTY
    {
      reports, conflicts := [], [];
    }

    method Record(posted: Report) returns (outcome: Outcome, kept: Report)
      modifies this
      ensures Content() == Recorded(old(Content()), posted)
      ensures SamePair(kept, posted) && exists i :: 0 <= i < |reports| && reports[i].report == kept
      ensures outcome.Duplicate? <==> exists i :: 0 <= i < |old(reports)| && old(reports)[i].report == Canonical(posted)
      ensures outcome.Duplicate? ==> Content() == old(Content())
      ensures outcome.ConflictKept? <==> kept != Canonical(posted)
    {
      var report := Canonical(posted);
      var existing := RowOf(reports, report);
      if existing < |reports| {
        return Duplicate, report;
      }
      var prior := PairRowOf(reports, report);
      if prior < |reports| {
        kept := reports[prior].report;
        var overall := OverallStatus(report);
        conflicts := conflicts + [Conflict(report.epochId, kept, report, overall)];
        return ConflictKept, kept;
      }
      var overall := OverallStatus(report);
      reports := reports + [Stored(report, overall)];
      assert reports[|reports| - 1].report == report;
      return New, report;
    }

    method DisputedConflictsForEpoch(e: int) returns (n: nat)
      ensures n > 0 <==> DisputedConflictIn(Content(), e)
      ensures n <= |conflicts|
    {
      n := 0;
      for i := 0 to |conflicts|
        invariant n <= i
        invariant n > 0 <==>
                    exists k :: 0 <= k < i && conflicts[k].epochId == e && conflicts[k].rejectedOverall == DISPUTED
      {
        if conflicts[i].epochId == e && conflicts[i].rejectedOverall == DISPUTED {
          n := n + 1;
        }
      }
    }

    /** What `/audit/status` answers for an epoch. */
    method Status(e: int) returns (v: Verdict)
      ensures v == VerdictOf(Content(), e)
    {
      var n := DisputedConflictsForEpoch(e);
      var rows := ForEpoch(reports, e);
      EpochRows(reports, e);
      v := EpochStatus(rows, n);
    }

    /** The gauge: a union over both tables. */
    method DisputedEpochCount() returns (n: nat)
      requires Consistent(Content())
      ensures n == |MarkedDisputed(Content())|
      ensures forall e :: e in MarkedDisputed(Content()) <==> VerdictOf(Content(), e) == Disputed
    {
      var found := (set i | 0 <= i < |reports| && reports[i].overall == DISPUTED :: reports[i].report.epochId)
                   + (set i | 0 <= i < |conflicts| && conflicts[i].rejectedOverall == DISPUTED :: conflicts[i].epochId);
      forall e
        ensures e in found <==> VerdictOf(Content(), e) == Disputed
        ensures e in found <==> e in MarkedDisputed(Content())
      {
        GaugeMembership(Content(), e);
      }
      assert found == MarkedDisputed(Content());
      return |found|;
    }
  }

  lemma EpochRows(reports: seq<Stored>, e: int)
    ensures ForEpoch(reports, e) == [] <==> !Reported(reports, e)
    ensures forall status ::
              (exists i :: 0 <= i < |ForEpoch(reports, e)| && Overall(ForEpoch(reports, e)[i].report) == status)
              <==> Holds(reports, e, status)
  {
    var rows := ForEpoch(reports, e);
    if rows != [] { assert rows[0] in reports; }
    if Reported(reports, e) {
      var i :| 0 <= i < |reports| && reports[i].report.epochId == e;
      assert reports[i] in rows;
    }
    forall status
      ensures (exists i :: 0 <= i < |rows| && Overall(rows[i].report) == status) <==> Holds(reports, e, status)
    {
      if i :| 0 <= i < |rows| && Overall(rows[i].report) == status { assert rows[i] in reports; }
      if Holds(reports, e, status) {
        var i :| 0 <= i < |reports| && reports[i].report.epochId == e && Overall(reports[i].report) == status;
        assert reports[i] in rows;
      }
    }
  }

  // -- what every recording keeps ---------------------------------------------------------------

  /** Stored verdicts are the recomputed ones, no pair is kept twice, and every conflict has the
      first report of its pair beside it. */
  ghost predicate Consistent(t: Tables) {
    && (forall i :: 0 <= i < |t.reports| ==> t.reports[i].overall == Overall(t.reports[i].report))
    && (forall i, j :: 0 <= i < j < |t.reports| ==> !SamePair(t.reports[i].report, t.reports[j].report))
    && (forall i :: 0 <= i < |t.conflicts| ==> ConflictOk(t, t.conflicts[i]))
  }

  ghost predicate ConflictOk(t: Tables, c: Conflict) {
    && c.epochId == c.rejected.epochId && c.rejectedOverall == Overall(c.rejected)
    && SamePair(c.kept, c.rejected) && c.kept != c.rejected
    && exists i :: 0 <= i < |t.reports| && t.reports[i].report == c.kept
  }

  /** Both tables only grow at their end. */
  ghost predicate Appends(t: Tables, later: Tables) {
    t.reports <= later.reports && t.conflicts <= later.conflicts
  }

  ghost predicate Submitted(t: Tables, r: Report) {
    || (exists i :: 0 <= i < |t.reports| && t.reports[i].report == r)
    || (exists i :: 0 <= i < |t.conflicts| && t.conflicts[i].rejected == r)
  }

  lemma RecordKeepsConsistent(t: Tables, r: Report)
    requires Consistent(t)
    ensures Consistent(Recorded(t, r)) && Appends(t, Recorded(t, r))
  {
    var later := Recorded(t, r);
    forall i | 0 <= i < |later.conflicts| ensures ConflictOk(later, later.conflicts[i]) {
      if i < |t.conflicts| {
        assert ConflictOk(t, t.conflicts[i]);
        var k :| 0 <= k < |t.reports| && t.reports[k].report == t.conflicts[i].kept;
        assert later.reports[k].report == later.conflicts[i].kept;
      } else {
        var prior := PairRowOf(t.reports, Canonical(r));
        assert later.reports[prior].report == later.conflicts[i].kept;
      }
    }
  }

  lemma RecordSubmits(t: Tables, r: Report, x: Report)
    ensures Submitted(Recorded(t, r), x) <==> Submitted(t, x) || x == Canonical(r)
  {
    var later := Recorded(t, r);
    if Submitted(t, x) {
      if i :| 0 <= i < |t.reports| && t.reports[i].report == x { assert later.reports[i].report == x; }
      if i :| 0 <= i < |t.conflicts| && t.conflicts[i].rejected == x { assert later.conflicts[i].rejected == x; }
    }
    var c := Canonical(r);
    if RowOf(t.reports, c) == |t.reports| {
      if PairRowOf(t.reports, c) < |t.reports| {
        assert later.conflicts[|t.conflicts|].rejected == c;
      } else {
        assert later.reports[|t.reports|].report == c;
      }
    }
  }

  /** A report with this canonical form was posted. */
  ghost predicate PostedAs(rs: seq<Report>, x: Report) { exists r :: r in rs && Canonical(r) == x }

  lemma PostedAsSplits(rs: seq<Report>, x: Report)
    requires rs != []
    ensures PostedAs(rs, x) <==> Canonical(rs[0]) == x || PostedAs(rs[1..], x)
  {
    assert rs == [rs[0]] + rs[1..];
  }

  /** Everything that was posted is in one of the tables, first-kept or rejected, and nothing else. */
  lemma {:induction false} NothingIsLost(t: Tables, rs: seq<Report>, x: Report)
    requires Consistent(t)
    ensures Consistent(RecordedAll(t, rs)) && Appends(t, RecordedAll(t, rs))
    ensures Submitted(RecordedAll(t, rs), x) <==> Submitted(t, x) || PostedAs(rs, x)
    decreases |rs|
  {
    if rs != [] {
      PostedAsSplits(rs, x);
      RecordKeepsConsistent(t, rs[0]);
      RecordSubmits(t, rs[0], x);
      NothingIsLost(Recorded(t, rs[0]), rs[1..], x);
    }
  }

  ghost predicate FaultIn(t: Tables, e: int) {
    exists r :: Submitted(t, r) && r.epochId == e && HasFault(r)
  }

  lemma DisputedIsFault(t: Tables, e: int)
    requires Consistent(t)
    ensures VerdictOf(t, e) == Disputed <==> FaultIn(t, e)
  {
    if VerdictOf(t, e) == Disputed {
      if Holds(t.reports, e, DISPUTED) {
        var i :| 0 <= i < |t.reports| && t.reports[i].report.epochId == e && Overall(t.reports[i].report) == DISPUTED;
        assert Submitted(t, t.reports[i].report);
      } else {
        var i :| 0 <= i < |t.conflicts| && t.conflicts[i].epochId == e && t.conflicts[i].rejectedOverall == DISPUTED;
        assert ConflictOk(t, t.conflicts[i]);
        assert Submitted(t, t.conflicts[i].rejected);
      }
    }
    if FaultIn(t, e) {
      var r :| Submitted(t, r) && r.epochId == e && HasFault(r);
      if i :| 0 <= i < |t.conflicts| && t.conflicts[i].rejected == r {
        assert ConflictOk(t, t.conflicts[i]);
        var k :| 0 <= k < |t.reports| && t.reports[k].report == t.conflicts[i].kept;
        assert t.reports[k].report.epochId == e;
        assert DisputedConflictIn(t, e);
      }
    }
  }

  /** Disputes cannot be buried: after any reports in any order with any duplicates, an epoch is
      DISPUTED exactly when some posted report for it, kept or rejected, carries a provable fault. */
  lemma DisputesCannotBeBuried(rs: seq<Report>, e: int)
    ensures VerdictOf(RecordedAll(EMPTY, rs), e) == Disputed <==> exists r :: r in rs && r.epochId == e && HasFault(r)
  {
    var t := RecordedAll(EMPTY, rs);
    forall x: Report ensures Submitted(t, x) <==> PostedAs(rs, x) {
      NothingIsLost(EMPTY, rs, x);
    }
    NothingIsLost(EMPTY, rs, Report("", 0, Beacon, [], PASS, [], ""));
    DisputedIsFault(t, e);
    forall r | r in rs ensures Submitted(t, Canonical(r)) && (HasFault(Canonical(r)) <==> HasFault(r)) {
      CanonicalKeeps(r);
      assert PostedAs(rs, Canonical(r));
    }
  }

  /** Once DISPUTED, always DISPUTED. */
  lemma DisputeIsFinal(t: Tables, rs: seq<Report>, e: int)
    requires Consistent(t) && VerdictOf(t, e) == Disputed
    ensures VerdictOf(RecordedAll(t, rs), e) == Disputed
  {
    DisputedIsFault(t, e);
    var r :| Submitted(t, r) && r.epochId == e && HasFault(r);
    NothingIsLost(t, rs, r);
    DisputedIsFault(RecordedAll(t, rs), e);
  }

  /** The gauge counts an epoch exactly when the aggregate calls it DISPUTED: a rejected report never
      stands for an epoch without reports. */
  lemma GaugeMembership(t: Tables, e: int)
    requires Consistent(t)
    ensures VerdictOf(t, e) == Disputed <==>
              || (exists i ::
                    0 <= i < |t.reports| && t.reports[i].overall == DISPUTED && t.reports[i].report.epochId == e)
              || (exists i ::
                    0 <= i < |t.conflicts| && t.conflicts[i].rejectedOverall == DISPUTED && t.conflicts[i].epochId == e)
  {
    DisputedIsFault(t, e);
    if i :| 0 <= i < |t.conflicts| && t.conflicts[i].rejectedOverall == DISPUTED && t.conflicts[i].epochId == e {
      assert ConflictOk(t, t.conflicts[i]);
      assert Submitted(t, t.conflicts[i].rejected);
    }
    if i :| 0 <= i < |t.reports| && t.reports[i].overall == DISPUTED && t.reports[i].report.epochId == e {
      assert Submitted(t, t.reports[i].report);
    }
  }

  /** A report posted again with its verdicts in another order is the same report, as long as no two of
      its verdicts differ and have one rank. */
  lemma ResortedIsSame(t: Tables, r: Report, again: Report)
    requires again == r.(items := again.items, earnings := again.earnings)
    requires multiset(again.items) == multiset(r.items) && multiset(again.earnings) == multiset(r.earnings)
    requires KeysDistinct(r.items, RankOf) && KeysDistinct(r.earnings, RankOf)
    ensures Recorded(t, again) == Recorded(t, r)
    ensures Kept(t, Canonical(r)) ==> Recorded(t, again) == t
  {
    SortIgnoresArrival(r.items, again.items, RankOf);
    SortIgnoresArrival(r.earnings, again.earnings, RankOf);
  }

  // -- order of arrival --------------------------------------------------------------------------

  ghost predicate Posted(rs: seq<Report>, e: int, status: Status) {
    exists r :: r in rs && r.epochId == e && Overall(r) == status
  }

  /** All that was posted for the pair of `r` is CLEAN. */
  ghost predicate PairClean(rs: seq<Report>, r: Report) {
    forall x :: x in rs && SamePair(x, r) ==> Overall(x) == CLEAN
  }

  /** The verdict is out of the hands of the order: a fault was posted, or nothing CLEAN was, or some
      auditor posted nothing but CLEAN in some mode. */
  ghost predicate Settled(rs: seq<Report>, e: int) {
    || Posted(rs, e, DISPUTED)
    || !Posted(rs, e, CLEAN)
    || exists r :: r in rs && r.epochId == e && PairClean(rs, r)
  }

  /** `r` is the canonical form of the first posted report of its pair. */
  ghost predicate FirstOfPair(rs: seq<Report>, r: Report) { exists i :: FirstAt(rs, r, i) }

  ghost predicate FirstAt(rs: seq<Report>, r: Report, i: int) {
    0 <= i < |rs| && Canonical(rs[i]) == r && forall j :: 0 <= j < i ==> !SamePair(rs[j], r)
  }

  ghost predicate Kept(t: Tables, r: Report) {
    exists i :: 0 <= i < |t.reports| && t.reports[i].report == r
  }

  ghost predicate PairTaken(t: Tables, r: Report) {
    exists i :: 0 <= i < |t.reports| && SamePair(t.reports[i].report, r)
  }

  lemma RecordKeeps(t: Tables, x: Report, r: Report)
    ensures Kept(Recorded(t, x), r) <==> Kept(t, r) || (Canonical(x) == r && !PairTaken(t, r))
    ensures PairTaken(Recorded(t, x), r) <==> PairTaken(t, r) || SamePair(x, r)
  {
    var later := Recorded(t, x);
    if i :| 0 <= i < |t.reports| && t.reports[i].report == r { assert later.reports[i].report == r; }
    if i :| 0 <= i < |t.reports| && SamePair(t.reports[i].report, r) { assert SamePair(later.reports[i].report, r); }
    var own, prior := RowOf(t.reports, Canonical(x)), PairRowOf(t.reports, Canonical(x));
    if own == |t.reports| && prior == |t.reports| { assert later.reports[|t.reports|].report == Canonical(x); }
  }

  lemma FirstOfPairSplits(rs: seq<Report>, r: Report)
    requires rs != []
    ensures FirstOfPair(rs, r) <==> Canonical(rs[0]) == r || (!SamePair(rs[0], r) && FirstOfPair(rs[1..], r))
  {
    if FirstOfPair(rs, r) { FirstStaysInTail(rs, r); }
    if Canonical(rs[0]) == r { assert FirstAt(rs, r, 0); }
    if !SamePair(rs[0], r) && FirstOfPair(rs[1..], r) { FirstOfTail(rs, r); }
  }

  lemma FirstStaysInTail(rs: seq<Report>, r: Report)
    requires FirstOfPair(rs, r)
    ensures Canonical(rs[0]) == r || (!SamePair(rs[0], r) && FirstOfPair(rs[1..], r))
  {
    var i :| FirstAt(rs, r, i);
    if i > 0 { assert FirstAt(rs[1..], r, i - 1); }
  }

  lemma FirstOfTail(rs: seq<Report>, r: Report)
    requires rs != [] && !SamePair(rs[0], r) && FirstOfPair(rs[1..], r)
    ensures FirstOfPair(rs, r)
  {
    var i :| FirstAt(rs[1..], r, i);
    forall j | 0 <= j < i + 1 ensures !SamePair(rs[j], r) { if j > 0 { assert rs[j] == rs[1..][j - 1]; } }
    assert FirstAt(rs, r, i + 1);
  }

  /** Posting keeps exactly the first report of every pair. */
  lemma {:induction false} KeptIffFirst(t: Tables, rs: seq<Report>, r: Report)
    ensures Kept(RecordedAll(t, rs), r) <==> Kept(t, r) || (!PairTaken(t, r) && FirstOfPair(rs, r))
    decreases |rs|
  {
    if rs != [] {
      RecordKeeps(t, rs[0], r);
      FirstOfPairSplits(rs, r);
      KeptIffFirst(Recorded(t, rs[0]), rs[1..], r);
    }
  }

  /** Every posted pair has a first report. */
  lemma {:induction false} SomeFirst(rs: seq<Report>, r: Report) returns (x: Report)
    requires r in rs
    ensures x in rs && SamePair(x, r) && FirstOfPair(rs, Canonical(x))
  {
    if SamePair(rs[0], r) {
      x := rs[0];
      assert FirstAt(rs, Canonical(x), 0);
    } else {
      assert rs == [rs[0]] + rs[1..];
      x := SomeFirst(rs[1..], r);
      FirstOfPairSplits(rs, Canonical(x));
    }
  }

  ghost predicate FirstClean(rs: seq<Report>, e: int) {
    exists r :: FirstOfPair(rs, r) && r.epochId == e && Overall(r) == CLEAN
  }

  /** The verdict in terms of what was posted and which reports came first. */
  ghost function VerdictFromFirsts(rs: seq<Report>, e: int): Verdict {
    if !(exists r :: r in rs && r.epochId == e) then Unaudited
    else if Posted(rs, e, DISPUTED) then Disputed
    else if FirstClean(rs, e) then Clean else Inconclusive
  }

  lemma VerdictByFirsts(rs: seq<Report>, e: int)
    ensures VerdictOf(RecordedAll(EMPTY, rs), e) == VerdictFromFirsts(rs, e)
  {
    var t := RecordedAll(EMPTY, rs);
    forall r ensures Kept(t, r) <==> FirstOfPair(rs, r) { KeptIffFirst(EMPTY, rs, r); }
    ReportedIsPosted(t, rs, e);
    DisputesCannotBeBuried(rs, e);
    HoldsIsFirst(t, rs, e);
  }

  lemma ReportedIsPosted(t: Tables, rs: seq<Report>, e: int)
    requires forall r :: Kept(t, r) <==> FirstOfPair(rs, r)
    ensures Reported(t.reports, e) <==> exists r :: r in rs && r.epochId == e
  {
    if r :| r in rs && r.epochId == e {
      var x := SomeFirst(rs, r);
      assert Kept(t, Canonical(x));
    }
    if Reported(t.reports, e) {
      var i :| 0 <= i < |t.reports| && t.reports[i].report.epochId == e;
      assert Kept(t, t.reports[i].report);
      var x := FirstIsPosted(rs, t.reports[i].report);
    }
  }

  lemma HoldsIsFirst(t: Tables, rs: seq<Report>, e: int)
    requires forall r :: Kept(t, r) <==> FirstOfPair(rs, r)
    ensures Holds(t.reports, e, CLEAN) <==> FirstClean(rs, e)
  {
    if Holds(t.reports, e, CLEAN) {
      var i :| 0 <= i < |t.reports| && t.reports[i].report.epochId == e && Overall(t.reports[i].report) == CLEAN;
      assert Kept(t, t.reports[i].report);
    }
    if FirstClean(rs, e) {
      var r :| FirstOfPair(rs, r) && r.epochId == e && Overall(r) == CLEAN;
      assert Kept(t, r);
    }
  }

  /** In a settled epoch the verdict is that of the set of posted reports. */
  lemma VerdictOfTheSet(rs: seq<Report>, e: int)
    requires Settled(rs, e)
    ensures VerdictOf(RecordedAll(EMPTY, rs), e) ==
            if !(exists r :: r in rs && r.epochId == e) then Unaudited
            else if Posted(rs, e, DISPUTED) then Disputed
            else if Posted(rs, e, CLEAN) then Clean else Inconclusive
  {
    VerdictByFirsts(rs, e);
    if !Posted(rs, e, DISPUTED) { SettledCleanIsFirst(rs, e); }
  }

  lemma SettledCleanIsFirst(rs: seq<Report>, e: int)
    requires Settled(rs, e) && !Posted(rs, e, DISPUTED)
    ensures FirstClean(rs, e) <==> Posted(rs, e, CLEAN)
  {
    if Posted(rs, e, CLEAN) {
      var r :| r in rs && r.epochId == e && PairClean(rs, r);
      var x := SomeFirst(rs, r);
      CanonicalKeeps(x);
    }
    if FirstClean(rs, e) {
      var r :| FirstOfPair(rs, r) && r.epochId == e && Overall(r) == CLEAN;
      var x := FirstIsPosted(rs, r);
    }
  }

  lemma FirstIsPosted(rs: seq<Report>, r: Report) returns (x: Report)
    requires FirstOfPair(rs, r)
    ensures x in rs && Canonical(x) == r && Overall(x) == Overall(r) && SamePair(x, r)
  {
    var i :| FirstAt(rs, r, i);
    x := rs[i];
    CanonicalKeeps(x);
  }

  // the two orders that tell an unsettled epoch apart

  function Cleans(rs: seq<Report>): seq<Report> {
    if rs == [] then [] else (if Overall(rs[0]) == CLEAN then [rs[0]] else []) + Cleans(rs[1..])
  }

  function Others(rs: seq<Report>): seq<Report> {
    if rs == [] then [] else (if Overall(rs[0]) == CLEAN then [] else [rs[0]]) + Others(rs[1..])
  }

  lemma {:induction false} Parted(rs: seq<Report>)
    ensures multiset(rs) == multiset(Cleans(rs)) + multiset(Others(rs))
    ensures forall x :: x in Cleans(rs) <==> x in rs && Overall(x) == CLEAN
    ensures forall x :: x in Others(rs) <==> x in rs && Overall(x) != CLEAN
  {
    if rs != [] {
      Parted(rs[1..]);
      assert rs == [rs[0]] + rs[1..];
    }
  }

  lemma FirstInFront(a: seq<Report>, b: seq<Report>, r: Report)
    requires FirstOfPair(a, r)
    ensures FirstOfPair(a + b, r)
  {
    var i :| FirstAt(a, r, i);
    assert FirstAt(a + b, r, i);
  }

  lemma NotFirstBehind(a: seq<Report>, b: seq<Report>, r: Report, x: Report)
    requires x in a && SamePair(x, r) && forall y :: y in a ==> Canonical(y) != r
    ensures !FirstOfPair(a + b, r)
  {
    var k :| 0 <= k < |a| && a[k] == x;
    assert (a + b)[k] == x;
    forall i ensures !FirstAt(a + b, r, i) {
      if 0 <= i < |a| { assert (a + b)[i] == a[i] && a[i] in a; }
    }
  }

  lemma CleansFirst(rs: seq<Report>, e: int)
    requires Posted(rs, e, CLEAN)
    ensures FirstClean(Cleans(rs) + Others(rs), e)
  {
    Parted(rs);
    var c :| c in rs && c.epochId == e && Overall(c) == CLEAN;
    var x := SomeFirst(Cleans(rs), c);
    CanonicalKeeps(x);
    FirstInFront(Cleans(rs), Others(rs), Canonical(x));
  }

  lemma OthersFirst(rs: seq<Report>, e: int)
    requires !Settled(rs, e)
    ensures !FirstClean(Others(rs) + Cleans(rs), e)
  {
    Parted(rs);
    forall r: Report | r.epochId == e && Overall(r) == CLEAN ensures !FirstOfPair(Others(rs) + Cleans(rs), r) {
      if FirstOfPair(Others(rs) + Cleans(rs), r) { OtherIsFirst(rs, r); }
    }
  }

  /** Where a pair is not CLEAN throughout, no CLEAN report of it comes before all others. */
  lemma OtherIsFirst(rs: seq<Report>, r: Report)
    requires !(exists y :: y in rs && y.epochId == r.epochId && PairClean(rs, y)) && Overall(r) == CLEAN
    ensures !FirstOfPair(Others(rs) + Cleans(rs), r)
  {
    if FirstOfPair(Others(rs) + Cleans(rs), r) {
      Parted(rs);
      var y := FirstIsPosted(Others(rs) + Cleans(rs), r);
      assert !PairClean(rs, y);
      var x :| x in rs && SamePair(x, y) && Overall(x) != CLEAN;
      forall z | z in Others(rs) ensures Canonical(z) != r { CanonicalKeeps(z); }
      NotFirstBehind(Others(rs), Cleans(rs), r, x);
    }
  }

  lemma SamePosts(rs: seq<Report>, qs: seq<Report>, e: int)
    requires multiset(qs) == multiset(rs)
    ensures forall x :: x in qs <==> x in rs
    ensures Settled(rs, e) ==> Settled(qs, e)
  {
    forall x ensures x in qs <==> x in rs { assert x in multiset(qs) <==> x in multiset(rs); }
    SameStatuses(rs, qs, e, DISPUTED);
    SameStatuses(rs, qs, e, CLEAN);
    if r :| r in rs && r.epochId == e && PairClean(rs, r) { assert r in qs && PairClean(qs, r); }
  }

  /** No order of the same posts gives another verdict. */
  ghost predicate OrderNeverMatters(rs: seq<Report>, e: int) {
    forall qs :: multiset(qs) == multiset(rs) ==>
      VerdictOf(RecordedAll(EMPTY, qs), e) == VerdictOf(RecordedAll(EMPTY, rs), e)
  }

  lemma SettledOrderIsIrrelevant(rs: seq<Report>, qs: seq<Report>, e: int)
    requires Settled(rs, e) && multiset(qs) == multiset(rs)
    ensures VerdictOf(RecordedAll(EMPTY, qs), e) == VerdictOf(RecordedAll(EMPTY, rs), e)
  {
    SamePosts(rs, qs, e);
    SameStatuses(rs, qs, e, DISPUTED);
    SameStatuses(rs, qs, e, CLEAN);
    VerdictOfTheSet(rs, e);
    VerdictOfTheSet(qs, e);
  }

  lemma SameStatuses(rs: seq<Report>, qs: seq<Report>, e: int, status: Status)
    requires forall x :: x in qs <==> x in rs
    ensures Posted(qs, e, status) <==> Posted(rs, e, status)
  {
    if Posted(qs, e, status) {
      var r :| r in qs && r.epochId == e && Overall(r) == status;
      assert r in rs;
    }
    if Posted(rs, e, status) {
      var r :| r in rs && r.epochId == e && Overall(r) == status;
      assert r in qs;
    }
  }

  lemma UnsettledVerdict(rs: seq<Report>, qs: seq<Report>, e: int)
    requires !Settled(rs, e) && forall x :: x in qs <==> x in rs
    ensures VerdictOf(RecordedAll(EMPTY, qs), e) == if FirstClean(qs, e) then Clean else Inconclusive
  {
    UnsettledFromFirsts(rs, qs, e);
    VerdictByFirsts(qs, e);
  }

  lemma UnsettledFromFirsts(rs: seq<Report>, qs: seq<Report>, e: int)
    requires !Settled(rs, e) && forall x :: x in qs <==> x in rs
    ensures VerdictFromFirsts(qs, e) == if FirstClean(qs, e) then Clean else Inconclusive
  {
    SameStatuses(rs, qs, e, DISPUTED);
    SameStatuses(rs, qs, e, CLEAN);
    CleanFromFirsts(qs, e);
  }

  lemma CleanFromFirsts(qs: seq<Report>, e: int)
    requires Posted(qs, e, CLEAN) && !Posted(qs, e, DISPUTED)
    ensures VerdictFromFirsts(qs, e) == if FirstClean(qs, e) then Clean else Inconclusive
  {}

  /** Both orders are orders of the same posts. */
  lemma PartedOrders(rs: seq<Report>)
    ensures multiset(Cleans(rs) + Others(rs)) == multiset(rs) && multiset(Others(rs) + Cleans(rs)) == multiset(rs)
    ensures forall x :: x in Cleans(rs) + Others(rs) <==> x in rs
    ensures forall x :: x in Others(rs) + Cleans(rs) <==> x in rs
  {
    Parted(rs);
  }

  /** With all CLEAN reports first the verdict is CLEAN. */
  lemma CleanInFront(rs: seq<Report>, e: int)
    requires !Settled(rs, e)
    ensures var qs := Cleans(rs) + Others(rs);
            multiset(qs) == multiset(rs) && VerdictOf(RecordedAll(EMPTY, qs), e) == Clean
  {
    var qs := Cleans(rs) + Others(rs);
    PartedOrders(rs);
    CleansFirst(rs, e);
    UnsettledVerdict(rs, qs, e);
  }

  /** With them last it is INCONCLUSIVE. */
  lemma CleanBehind(rs: seq<Report>, e: int)
    requires !Settled(rs, e)
    ensures var qs := Others(rs) + Cleans(rs);
            multiset(qs) == multiset(rs) && VerdictOf(RecordedAll(EMPTY, qs), e) == Inconclusive
  {
    var qs := Others(rs) + Cleans(rs);
    PartedOrders(rs);
    OthersFirst(rs, e);
    UnsettledVerdict(rs, qs, e);
  }

  lemma OneOrder(rs: seq<Report>, qs: seq<Report>, e: int)
    requires OrderNeverMatters(rs, e) && multiset(qs) == multiset(rs)
    ensures VerdictOf(RecordedAll(EMPTY, qs), e) == VerdictOf(RecordedAll(EMPTY, rs), e)
  {}

  lemma UnsettledOrderMatters(rs: seq<Report>, e: int)
    requires !Settled(rs, e)
    ensures !OrderNeverMatters(rs, e)
  {
    CleanInFront(rs, e);
    CleanBehind(rs, e);
    if OrderNeverMatters(rs, e) {
      OneOrder(rs, Cleans(rs) + Others(rs), e);
      OneOrder(rs, Others(rs) + Cleans(rs), e);
    }
  }

  /** Exactly when the verdict of an epoch does not depend on the order of arrival. */
  lemma OrderNeverMattersExactlyWhen(rs: seq<Report>, e: int)
    ensures Settled(rs, e) <==> OrderNeverMatters(rs, e)
  {
    if Settled(rs, e) {
      forall qs | multiset(qs) == multiset(rs)
        ensures VerdictOf(RecordedAll(EMPTY, qs), e) == VerdictOf(RecordedAll(EMPTY, rs), e)
      {
        SettledOrderIsIrrelevant(rs, qs, e);
      }
    } else {
      UnsettledOrderMatters(rs, e);
    }
  }

  /** The smallest instance: an auditor that posts a clean and an inconclusive report for one epoch is
      judged by whichever came first. */
  lemma FirstKeptDecides(clean: Report, gap: Report)
    requires SamePair(clean, gap) && Overall(clean) == CLEAN && Overall(gap) == INCONCLUSIVE
    ensures VerdictOf(RecordedAll(EMPTY, [clean, gap]), clean.epochId) == Clean
    ensures VerdictOf(RecordedAll(EMPTY, [gap, clean]), clean.epochId) == Inconclusive
  {
    FirstKept(clean, gap);
    FirstKept(gap, clean);
  }

  lemma FirstKept(a: Report, b: Report)
    requires SamePair(a, b) && !HasFault(a) && !HasFault(b)
    ensures VerdictOf(RecordedAll(EMPTY, [a, b]), a.epochId) == if HasGap(a) then Inconclusive else Clean
  {
    VerdictByFirsts([a, b], a.epochId);
    FromFirstOfTwo(a, b);
  }

  lemma FromFirstOfTwo(a: Report, b: Report)
    requires SamePair(a, b) && !HasFault(a) && !HasFault(b)
    ensures VerdictFromFirsts([a, b], a.epochId) == if HasGap(a) then Inconclusive else Clean
  {
    FirstOfTwo(a, b);
    CanonicalKeeps(a);
    assert [a, b][0] in [a, b];
    assert !Posted([a, b], a.epochId, DISPUTED);
  }

  lemma FirstOfTwo(a: Report, b: Report)
    requires SamePair(a, b)
    ensures forall r :: FirstOfPair([a, b], r) <==> r == Canonical(a)
  {
    assert FirstAt([a, b], Canonical(a), 0);
    forall r | FirstOfPair([a, b], r) ensures r == Canonical(a) { var i :| FirstAt([a, b], r, i); }
  }
}
