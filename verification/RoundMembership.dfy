/** Commit windows and the cumulative round cursor: the structural part of the auditor's membership
    pass (vidaio/auditor/round_membership.py) and the cursor the manifest builder writes
    (vidaio/authority/finalizer.py). */
module RoundMembership {
  import opened Wrappers
  import opened Ordering

  datatype RoundCommit = RoundCommit(
    roundId: string, challengeId: string, commitBlock: int, anchorBlock: int, orderingKey: int)

  /** `foldCursors` are the values of the fold cursor map. `admitted` are the challenges of the media,
      availability and content rows of the manifest. */
  datatype Log =
    | HistoryV16(closeBlock: int, digest: string, foldCursors: seq<Option<int>>)
    | Current(closeBlock: int, digest: string, priorDigest: Option<string>, commitMembership: bool,
              commits: seq<RoundCommit>, cursor: Option<int>, admitted: set<string>)

  datatype Outcome = NotApplicable | Pass | Fail | Skip

  // -- what the index has to satisfy -----------------------------------------------------

  predicate RowValid(e: RoundCommit) {
    && 1 <= |e.roundId| <= 128 && 1 <= |e.challengeId| <= 128
    && 0 <= e.commitBlock && 0 <= e.anchorBlock && 1 <= e.orderingKey
  }

  function Keys(commits: seq<RoundCommit>): (r: seq<int>)
    ensures |r| == |commits| && forall i :: 0 <= i < |r| ==> r[i] == commits[i].orderingKey
  {
    seq(|commits|, i requires 0 <= i < |commits| => commits[i].orderingKey)
  }

  function Challenges(commits: seq<RoundCommit>): (r: seq<string>)
    ensures |r| == |commits| && forall i :: 0 <= i < |r| ==> r[i] == commits[i].challengeId
  {
    seq(|commits|, i requires 0 <= i < |commits| => commits[i].challengeId)
  }

  function Elements<T(==)>(s: seq<T>): set<T> { set x | x in s }

  ghost predicate Distinct<T>(s: seq<T>) {
    forall i, j :: 0 <= i < j < |s| ==> s[i] != s[j]
  }

  ghost predicate RoundsAtomic(commits: seq<RoundCommit>) {
    forall i, j :: 0 <= i < j < |commits| && commits[i].roundId == commits[j].roundId ==>
      commits[i].commitBlock == commits[j].commitBlock
  }

  predicate InEpoch(e: RoundCommit, close: int) { e.anchorBlock <= e.commitBlock <= close }

  ghost predicate IndexSound(log: Log)
    requires log.Current?
  {
    && (forall i :: 0 <= i < |log.commits| ==> RowValid(log.commits[i]) && InEpoch(log.commits[i], log.closeBlock))
    && Distinct(Challenges(log.commits)) && Distinct(Keys(log.commits)) && RoundsAtomic(log.commits)
    && Elements(Challenges(log.commits)) == log.admitted
  }

  /** The maximum of some numbers, None for no numbers. */
  function Highest(keys: seq<int>): (r: Option<int>)
    ensures r.None? <==> keys == []
    ensures r.Some? ==> r.value in keys && forall k :: k in keys ==> k <= r.value
  {
    if keys == [] then None
    else
      var r := Highest(keys[1..]);
      assert keys == [keys[0]] + keys[1..];
      if r.None? || r.value <= keys[0] then Some(keys[0]) else r
  }

  function OrNothing(k: Option<int>): seq<int> { if k.Some? then [k.value] else [] }

  function Present(values: seq<Option<int>>): seq<int> {
    if values == [] then [] else OrNothing(values[0]) + Present(values[1..])
  }

  /** A v16 predecessor had no round cursor; its highest fold cursor stands in. */
  function CursorOf(log: Log): Option<int> {
    if log.HistoryV16? then Highest(Present(log.foldCursors)) else log.cursor
  }

  /** Strictly after the predecessor in blocks and in keys, and the cursor moves exactly so far. */
  predicate Advances(log: Log, priorClose: int, priorCursor: Option<int>)
    requires log.Current?
  {
    && (forall i :: 0 <= i < |log.commits| ==> priorClose < log.commits[i].commitBlock)
    && (forall i :: 0 <= i < |log.commits| && priorCursor.Some? ==> priorCursor.value < log.commits[i].orderingKey)
    && log.cursor == Highest(Keys(log.commits) + OrNothing(priorCursor))
  }

  /** The log continues its predecessor, or opens the chain. */
  predicate Follows(log: Log, prior: Option<Log>, isGenesis: bool)
    requires log.Current?
  {
    match prior
    case None => log.priorDigest.None? && isGenesis && Advances(log, -1, None)
    case Some(p) =>
      log.priorDigest == Some(p.digest) && p.closeBlock < log.closeBlock && Advances(log, p.closeBlock, CursorOf(p))
  }

  ghost predicate Accepted(log: Log, prior: Option<Log>, isGenesis: bool) {
    log.Current? && log.commitMembership && IndexSound(log) && Follows(log, prior, isGenesis)
  }

  // -- the conditions in terms of the rows ------------------------------------------------

  /** The number is a maximum of `keys` and of the cursor before them; None means there is neither. */
  ghost predicate IsHighest(cursor: Option<int>, commits: seq<RoundCommit>, before: Option<int>) {
    && (cursor.None? <==> commits == [] && before.None?)
    && (cursor.Some? ==>
          && (before == cursor || exists i :: 0 <= i < |commits| && commits[i].orderingKey == cursor.value)
          && (before.Some? ==> before.value <= cursor.value)
          && forall i :: 0 <= i < |commits| ==> commits[i].orderingKey <= cursor.value)
  }

  /** A v16 predecessor stands for the highest of its fold cursors, any other for its own cursor. */
  ghost predicate StandsFor(log: Log, cursor: Option<int>) {
    match log
    case Current(_, _, _, _, _, c, _) => cursor == c
    case HistoryV16(_, _, folds) =>
      && (cursor.None? <==> forall i :: 0 <= i < |folds| ==> folds[i].None?)
      && (cursor.Some? ==> cursor in folds)
      && (cursor.Some? ==> forall i :: 0 <= i < |folds| && folds[i].Some? ==> folds[i].value <= cursor.value)
  }

  lemma CursorStandsFor(log: Log, cursor: Option<int>)
    ensures StandsFor(log, cursor) <==> cursor == CursorOf(log)
  {
    if log.HistoryV16? {
      forall k ensures k in Present(log.foldCursors) <==> Some(k) in log.foldCursors { PresentIs(log.foldCursors, k); }
      if Present(log.foldCursors) != [] { assert Present(log.foldCursors)[0] in Present(log.foldCursors); }
      NoneIsPresent(log.foldCursors);
    }
  }

  lemma {:induction false} PresentIs(values: seq<Option<int>>, k: int)
    ensures k in Present(values) <==> Some(k) in values
  {
    if values != [] {
      PresentIs(values[1..], k);
      assert values == [values[0]] + values[1..];
    }
  }

  lemma {:induction false} NoneIsPresent(values: seq<Option<int>>)
    ensures Present(values) == [] <==> forall i :: 0 <= i < |values| ==> values[i].None?
  {
    if values != [] {
      NoneIsPresent(values[1..]);
      assert values == [values[0]] + values[1..];
    }
  }

  lemma HighestIs(cursor: Option<int>, commits: seq<RoundCommit>, before: Option<int>)
    ensures IsHighest(cursor, commits, before) <==> cursor == Highest(Keys(commits) + OrNothing(before))
  {
    var keys := Keys(commits) + OrNothing(before);
    forall k ensures k in keys <==> before == Some(k) || exists i :: 0 <= i < |commits| && commits[i].orderingKey == k {
      KeyIsThere(commits, before, k);
    }
    assert |keys| == |commits| + if before.Some? then 1 else 0;
    assert before.Some? ==> keys[|commits|] == before.value;
    assert forall i :: 0 <= i < |commits| ==> keys[i] == commits[i].orderingKey;
    if IsHighest(cursor, commits, before) {
      HighestIsUnique(keys, cursor);
    } else if cursor == Highest(keys) && cursor.Some? {
      assert cursor.value in keys && forall k :: k in keys ==> k <= cursor.value;
      assert forall i :: 0 <= i < |keys| ==> keys[i] in keys;
    }
  }

  lemma KeyIsThere(commits: seq<RoundCommit>, before: Option<int>, k: int)
    ensures k in Keys(commits) + OrNothing(before) <==>
              before == Some(k) || exists i :: 0 <= i < |commits| && commits[i].orderingKey == k
  {
    var keys := Keys(commits) + OrNothing(before);
    if i :| 0 <= i < |commits| && commits[i].orderingKey == k { assert keys[i] == k; }
    if before == Some(k) { assert keys[|commits|] == k; }
    if k in keys {
      var i :| 0 <= i < |keys| && keys[i] == k;
    }
  }

  /** One row: identifiers of 1 to 128 characters, heights from zero, a key from one, committed no earlier
      than its anchor and inside its epoch's window. */
  predicate RowFits(e: RoundCommit, start: int, close: int) {
    && e.roundId != "" && |e.roundId| <= 128 && e.challengeId != "" && |e.challengeId| <= 128
    && 0 <= e.anchorBlock && 0 < e.orderingKey
    && e.anchorBlock <= e.commitBlock && 0 <= e.commitBlock && start < e.commitBlock <= close
  }

  /** Rows that fit, no challenge and no key twice, one height a round, and exactly the admitted challenges. */
  ghost predicate RowsFit(log: Log, start: int)
    requires log.Current?
  {
    var rows := log.commits;
    && (forall i :: 0 <= i < |rows| ==> RowFits(rows[i], start, log.closeBlock))
    && (forall i, j :: 0 <= i < j < |rows| ==>
          && rows[i].challengeId != rows[j].challengeId && rows[i].orderingKey != rows[j].orderingKey
          && (rows[i].roundId == rows[j].roundId ==> rows[i].commitBlock == rows[j].commitBlock))
    && (forall c :: c in log.admitted <==> exists i :: 0 <= i < |rows| && rows[i].challengeId == c)
  }

  /** The log continues what ended at `start` with that cursor. */
  ghost predicate Continues(log: Log, start: int, before: Option<int>)
    requires log.Current?
  {
    && RowsFit(log, start) && IsHighest(log.cursor, log.commits, before)
    && (before.Some? ==> forall i :: 0 <= i < |log.commits| ==> before.value < log.commits[i].orderingKey)
  }

  /** What the audit passes: the genesis, or a log behind its predecessor, whose rows fit the window and whose
      cursor is the highest key so far. */
  lemma AcceptedExactlyWhen(log: Log, prior: Option<Log>, isGenesis: bool)
    ensures Accepted(log, prior, isGenesis) <==>
              && log.Current? && log.commitMembership
              && (prior.None? ==> log.priorDigest.None? && isGenesis && Continues(log, -1, None))
              && (prior.Some? ==>
                    && log.priorDigest == Some(prior.value.digest) && prior.value.closeBlock < log.closeBlock
                    && exists before ::
                         StandsFor(prior.value, before) && Continues(log, prior.value.closeBlock, before))
  {
    if log.Current? {
      if prior.None? {
        ContinuesExactlyWhen(log, -1, None);
      } else {
        CursorStandsFor(prior.value, CursorOf(prior.value));
        ContinuesExactlyWhen(log, prior.value.closeBlock, CursorOf(prior.value));
        forall before ensures StandsFor(prior.value, before) <==> before == CursorOf(prior.value) {
          CursorStandsFor(prior.value, before);
        }
      }
    }
  }

  lemma ContinuesExactlyWhen(log: Log, start: int, before: Option<int>)
    requires log.Current?
    ensures Continues(log, start, before) <==> IndexSound(log) && Advances(log, start, before)
  {
    HighestIs(log.cursor, log.commits, before);
    RowsFitExactlyWhen(log, start);
  }

  lemma RowsFitExactlyWhen(log: Log, start: int)
    requires log.Current?
    ensures RowsFit(log, start) <==>
              IndexSound(log) && forall i :: 0 <= i < |log.commits| ==> start < log.commits[i].commitBlock
  {
    var rows := log.commits;
    forall c ensures c in Elements(Challenges(rows)) <==> exists i :: 0 <= i < |rows| && rows[i].challengeId == c {
      if i :| 0 <= i < |rows| && rows[i].challengeId == c { assert Challenges(rows)[i] == c; }
      if c in Challenges(rows) {
        var i :| 0 <= i < |rows| && Challenges(rows)[i] == c;
      }
    }
    RowsDiffer(rows);
  }

  lemma RowsDiffer(rows: seq<RoundCommit>)
    ensures Distinct(Challenges(rows)) <==>
              forall i, j :: 0 <= i < j < |rows| ==> rows[i].challengeId != rows[j].challengeId
    ensures Distinct(Keys(rows)) <==> forall i, j :: 0 <= i < j < |rows| ==> rows[i].orderingKey != rows[j].orderingKey
  {
    forall i, j | 0 <= i < j < |rows|
      ensures Challenges(rows)[i] == rows[i].challengeId && Challenges(rows)[j] == rows[j].challengeId
      ensures Keys(rows)[i] == rows[i].orderingKey && Keys(rows)[j] == rows[j].orderingKey
    {}
  }

  // -- the audit -------------------------------------------------------------------------

  lemma {:induction false} SizeTellsDistinct<T>(s: seq<T>)
    ensures |Elements(s)| <= |s| && (|Elements(s)| == |s| <==> Distinct(s))
  {
    if s != [] {
      var rest := s[1..];
      SizeTellsDistinct(rest);
      assert s == [s[0]] + rest;
      assert Elements(s) == Elements(rest) + {s[0]};
      if Distinct(s) {
        assert Distinct(rest) by {
          forall i, j | 0 <= i < j < |rest| ensures rest[i] != rest[j] { assert s[i + 1] != s[j + 1]; }
        }
        assert s[0] !in rest;
      }
      if |Elements(s)| == |s| {
        forall i, j | 0 <= i < j < |s| ensures s[i] != s[j] {
          if i == 0 { assert s[j] in Elements(rest); } else { assert rest[i - 1] != rest[j - 1]; }
        }
      }
    }
  }

  /** The loop over the rows: the first commit height seen for a round binds the others. */
  method CheckHeights(commits: seq<RoundCommit>, close: int) returns (ok: bool)
    ensures ok <==> RoundsAtomic(commits) && forall i :: 0 <= i < |commits| ==> InEpoch(commits[i], close)
  {
    var roundBlocks: map<string, int> := map[];
    for i := 0 to |commits|
      invariant forall j :: 0 <= j < i ==> commits[j].roundId in roundBlocks
      invariant forall j :: 0 <= j < i ==> roundBlocks[commits[j].roundId] == commits[j].commitBlock
      invariant forall r :: r in roundBlocks ==> exists j :: 0 <= j < i && commits[j].roundId == r
      invariant forall j :: 0 <= j < i ==> InEpoch(commits[j], close)
    {
      var entry := commits[i];
      if entry.roundId !in roundBlocks {
        roundBlocks := roundBlocks[entry.roundId := entry.commitBlock];
      }
      if roundBlocks[entry.roundId] != entry.commitBlock {
        return false;
      }
      if !InEpoch(entry, close) {
        return false;
      }
    }
    return true;
  }

  method CheckIndex(log: Log) returns (ok: bool)
    requires log.Current?
    ensures ok <==> IndexSound(log)
  {
    var commits := log.commits;
    if exists i | 0 <= i < |commits| :: !RowValid(commits[i]) {
      return false;
    }
    SizeTellsDistinct(Challenges(commits));
    SizeTellsDistinct(Keys(commits));
    if |Elements(Challenges(commits))| != |commits| || |Elements(Keys(commits))| != |commits| {
      return false;
    }
    ok := CheckHeights(commits, log.closeBlock);
    if ok {
      ok := log.admitted == Elements(Challenges(commits));
    }
  }

  method AuditRoundMembership(log: Log, prior: Option<Log>, isGenesis: bool) returns (r: Outcome)
    ensures r == NotApplicable <==> log.HistoryV16?
    ensures r == Pass <==> Accepted(log, prior, isGenesis)
    ensures r == Skip <==>
              log.Current? && log.commitMembership && IndexSound(log) && prior.None? && log.priorDigest.Some?
  {
    if log.HistoryV16? {
      return NotApplicable;
    }
    if !log.commitMembership {
      return Fail;
    }
    var sound := CheckIndex(log);
    if !sound {
      return Fail;
    }
    var priorClose, priorCursor := -1, None;
    if prior.None? {
      if log.priorDigest.Some? {
        return Skip;
      }
      if !isGenesis {
        return Fail;
      }
    } else {
      if log.priorDigest != Some(prior.value.digest) {
        return Fail;
      }
      priorClose, priorCursor := prior.value.closeBlock, CursorOf(prior.value);
      if priorClose >= log.closeBlock {
        return Fail;
      }
    }
    return if Advances(log, priorClose, priorCursor) then Pass else Fail;
  }

  // -- the builder's cursor ------------------------------------------------------------------

  /** `build_audit_manifest` sorts the rows, compares the first with the published cursor and takes
      the last: that is the cursor the auditor expects, and a refusal is a row the auditor would
      refuse. */
  method BuildRoundCursor(commits: seq<RoundCommit>, priorCursor: Option<int>) returns (r: Result<Option<int>, ()>)
    ensures r.Failure? <==>
              priorCursor.Some? && exists i :: 0 <= i < |commits| && commits[i].orderingKey <= priorCursor.value
    ensures r.Success? ==> r.value == Highest(Keys(commits) + OrNothing(priorCursor))
  {
    var rows := SortBy(commits, KeyOf);
    SortedRows(commits, rows);
    if priorCursor.Some? && rows != [] && rows[0].orderingKey <= priorCursor.value {
      return Failure(());
    }
    var cursor := if rows != [] then Some(rows[|rows| - 1].orderingKey) else priorCursor;
    LastIsHighest(commits, rows, priorCursor);
    return Success(cursor);
  }

  function KeyOf(e: RoundCommit): int { e.orderingKey }

  lemma SortedRows(commits: seq<RoundCommit>, rows: seq<RoundCommit>)
    requires Ascending(rows, KeyOf) && multiset(rows) == multiset(commits) && |rows| == |commits|
    ensures |rows| == |commits|
    ensures rows != [] ==> rows[0] in commits && rows[|rows| - 1] in commits
    ensures forall i :: 0 <= i < |commits| ==>
            rows[0].orderingKey <= commits[i].orderingKey <= rows[|rows| - 1].orderingKey
  {
    forall i | 0 <= i < |commits|
      ensures rows[0].orderingKey <= commits[i].orderingKey <= rows[|rows| - 1].orderingKey
    {
      EndsOf(rows, commits, KeyOf, commits[i]);
    }
    if commits != [] { EndsOf(rows, commits, KeyOf, commits[0]); }
  }

  lemma LastIsHighest(commits: seq<RoundCommit>, rows: seq<RoundCommit>, priorCursor: Option<int>)
    requires Ascending(rows, KeyOf) && multiset(rows) == multiset(commits) && |rows| == |commits|
    requires priorCursor.Some? ==> forall i :: 0 <= i < |commits| ==> priorCursor.value < commits[i].orderingKey
    ensures |rows| == |commits|
    ensures Highest(Keys(commits) + OrNothing(priorCursor))
            == if rows != [] then Some(rows[|rows| - 1].orderingKey) else priorCursor
  {
    SortedRows(commits, rows);
    if rows == [] {
      HighestIsUnique(OrNothing(priorCursor), priorCursor);
      assert Keys(commits) + OrNothing(priorCursor) == OrNothing(priorCursor);
    } else {
      TopKeyIsHighest(commits, priorCursor, rows[|rows| - 1]);
    }
  }

  lemma TopKeyIsHighest(commits: seq<RoundCommit>, priorCursor: Option<int>, top: RoundCommit)
    requires top in commits && forall i :: 0 <= i < |commits| ==> commits[i].orderingKey <= top.orderingKey
    requires priorCursor.Some? ==> forall i :: 0 <= i < |commits| ==> priorCursor.value < commits[i].orderingKey
    ensures Highest(Keys(commits) + OrNothing(priorCursor)) == Some(top.orderingKey)
  {
    var keys := Keys(commits) + OrNothing(priorCursor);
    var i :| 0 <= i < |commits| && commits[i] == top;
    assert keys[i] == top.orderingKey;
    forall k | k in keys ensures k <= top.orderingKey {
      var t :| 0 <= t < |keys| && keys[t] == k;
      assert t < |commits| ==> k == commits[t].orderingKey;
    }
    HighestIsUnique(keys, Some(top.orderingKey));
  }

  lemma HighestIsUnique(keys: seq<int>, r: Option<int>)
    requires r.None? <==> keys == []
    requires r.Some? ==> r.value in keys && forall k :: k in keys ==> k <= r.value
    ensures r == Highest(keys)
  {}

  // -- chains of epochs --------------------------------------------------------------------------

  function Before(base: Option<Log>, logs: seq<Log>, i: nat): Option<Log>
    requires i < |logs|
  {
    if i == 0 then base else Some(logs[i - 1])
  }

  /** Every epoch passes against its predecessor; the first one against `base`, or as the genesis. */
  ghost predicate Chain(base: Option<Log>, logs: seq<Log>) {
    forall i {:trigger Before(base, logs, i)} :: 0 <= i < |logs| ==> Accepted(logs[i], Before(base, logs, i), i == 0)
  }

  /** Where the window of epoch `i` starts, its start not included. */
  function WindowStart(base: Option<Log>, logs: seq<Log>, i: nat): int
    requires i < |logs|
  {
    var before := Before(base, logs, i);
    if before.Some? then before.value.closeBlock else -1
  }

  predicate InWindow(base: Option<Log>, logs: seq<Log>, i: nat, block: int)
    requires i < |logs|
  {
    WindowStart(base, logs, i) < block <= logs[i].closeBlock
  }

  ghost predicate Dispatched(logs: seq<Log>, i: nat, k: int) {
    i < |logs| && logs[i].Current? && k in Keys(logs[i].commits)
  }

  /** What an accepted epoch means for the order of keys, cursors and closes. */
  ghost predicate Link(prior: Option<Log>, log: Log) {
    var before := if prior.Some? then CursorOf(prior.value) else None;
    && log.Current?
    && (prior.Some? ==> prior.value.closeBlock < log.closeBlock)
    && (before.Some? ==> log.cursor.Some? && before.value <= log.cursor.value)
    && (forall k :: k in Keys(log.commits) ==>
          log.cursor.Some? && k <= log.cursor.value && (before.Some? ==> before.value < k))
    && (log.cursor.Some? ==> log.cursor.value in Keys(log.commits) || before == log.cursor)
  }

  ghost predicate Links(base: Option<Log>, logs: seq<Log>) {
    forall i {:trigger Before(base, logs, i)} :: 0 <= i < |logs| ==> Link(Before(base, logs, i), logs[i])
  }

  lemma AcceptedLinks(log: Log, prior: Option<Log>, isGenesis: bool)
    requires Accepted(log, prior, isGenesis)
    ensures Link(prior, log)
  {
    var before := if prior.Some? then CursorOf(prior.value) else None;
    var keys := Keys(log.commits) + OrNothing(before);
    assert log.cursor == Highest(keys);
    forall k | k in Keys(log.commits) ensures k in keys && (before.Some? ==> before.value < k) {
      var i :| 0 <= i < |log.commits| && Keys(log.commits)[i] == k;
      assert keys[i] == k && k == log.commits[i].orderingKey;
    }
    if before.Some? { assert keys[|log.commits|] == before.value; }
  }

  lemma ChainLinks(base: Option<Log>, logs: seq<Log>)
    requires Chain(base, logs)
    ensures Links(base, logs)
  {
    forall i | 0 <= i < |logs| ensures Link(Before(base, logs, i), logs[i]) {
      AcceptedLinks(logs[i], Before(base, logs, i), i == 0);
    }
  }

  lemma {:induction false} CursorsCover(base: Option<Log>, logs: seq<Log>, i: nat, j: nat)
    requires Links(base, logs) && i <= j < |logs|
    ensures logs[i].closeBlock <= logs[j].closeBlock && (i < j ==> logs[i].closeBlock <= WindowStart(base, logs, j))
    ensures logs[i].Current? && logs[j].Current?
    ensures logs[i].cursor.Some? ==> logs[j].cursor.Some? && logs[i].cursor.value <= logs[j].cursor.value
    decreases j
  {
    assert Link(Before(base, logs, j), logs[j]);
    assert Link(Before(base, logs, i), logs[i]);
    if i < j { CursorsCover(base, logs, i, j - 1); }
  }

  /** Dispatch keys grow from epoch to epoch. */
  lemma KeysGrow(base: Option<Log>, logs: seq<Log>, i: nat, j: nat, a: int, b: int)
    requires Chain(base, logs) && i < j < |logs| && Dispatched(logs, i, a) && Dispatched(logs, j, b)
    ensures a < b
  {
    ChainLinks(base, logs);
    CursorsCover(base, logs, i, j - 1);
    assert Link(Before(base, logs, i), logs[i]);
    assert Link(Before(base, logs, j), logs[j]);
  }

  /** Within an epoch no two rows share a dispatch key. */
  lemma KeysDifferInEpoch(base: Option<Log>, logs: seq<Log>, i: nat, m: nat, n: nat)
    requires Chain(base, logs) && i < |logs| && logs[i].Current? && m < n < |logs[i].commits|
    ensures logs[i].commits[m].orderingKey != logs[i].commits[n].orderingKey
  {
    assert Accepted(logs[i], Before(base, logs, i), i == 0);
    assert Keys(logs[i].commits)[m] != Keys(logs[i].commits)[n];
  }

  /** Exactly once: a round's commit height lies in the window of its own epoch and in no other. */
  lemma OneWindow(base: Option<Log>, logs: seq<Log>, i: nat, n: nat, j: nat)
    requires Chain(base, logs) && i < |logs| && j < |logs| && logs[i].Current? && n < |logs[i].commits|
    ensures InWindow(base, logs, j, logs[i].commits[n].commitBlock) <==> j == i
  {
    InOwnWindow(base, logs, i, n);
    ChainLinks(base, logs);
    if j < i { CursorsCover(base, logs, j, i); }
    if i < j { CursorsCover(base, logs, i, j); }
  }

  lemma InOwnWindow(base: Option<Log>, logs: seq<Log>, i: nat, n: nat)
    requires Chain(base, logs) && i < |logs| && logs[i].Current? && n < |logs[i].commits|
    ensures InWindow(base, logs, i, logs[i].commits[n].commitBlock)
  {
    assert Accepted(logs[i], Before(base, logs, i), i == 0);
    assert InEpoch(logs[i].commits[n], logs[i].closeBlock);
  }

  /** The cursor is the maximum of all keys dispatched so far and of the cursor the chain began with. */
  lemma CursorIsHighestEver(base: Option<Log>, logs: seq<Log>, j: nat)
    requires Chain(base, logs) && j < |logs|
    ensures logs[j].Current?
    ensures forall i: nat, k :: i <= j && Dispatched(logs, i, k) ==> logs[j].cursor.Some? && k <= logs[j].cursor.value
    ensures base.Some? && CursorOf(base.value).Some? ==>
              logs[j].cursor.Some? && CursorOf(base.value).value <= logs[j].cursor.value
    ensures logs[j].cursor.Some? ==> Attained(base, logs, j, logs[j].cursor.value)
  {
    ChainLinks(base, logs);
    CursorsCover(base, logs, 0, j);
    assert Link(Before(base, logs, 0), logs[0]);
    forall i: nat, k | i <= j && Dispatched(logs, i, k) ensures logs[j].cursor.Some? && k <= logs[j].cursor.value {
      assert Link(Before(base, logs, i), logs[i]);
      CursorsCover(base, logs, i, j);
    }
    CursorAttained(base, logs, j);
  }

  ghost predicate Attained(base: Option<Log>, logs: seq<Log>, j: nat, k: int) {
    (base.Some? && CursorOf(base.value) == Some(k)) || exists i: nat :: i <= j && Dispatched(logs, i, k)
  }

  lemma {:induction false} CursorAttained(base: Option<Log>, logs: seq<Log>, j: nat)
    requires Links(base, logs) && j < |logs|
    ensures logs[j].Current? && (logs[j].cursor.Some? ==> Attained(base, logs, j, logs[j].cursor.value))
    decreases j
  {
    assert Link(Before(base, logs, j), logs[j]);
    if j > 0 { CursorAttained(base, logs, j - 1); }
    if logs[j].cursor.Some? && logs[j].cursor.value in Keys(logs[j].commits) {
      assert Dispatched(logs, j, logs[j].cursor.value);
    }
  }
}
