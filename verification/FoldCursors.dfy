/** The cumulative replay cursors: per uid the highest dispatch key ever folded, or None for an
    identity that was seen but never folded. Three pieces of code derive the next map on their own:
    the manifest builder and the finalizer (vidaio/authority/finalizer.py) and the authority service
    (vidaio/authority/service.py). */
module FoldCursors {
  import opened Wrappers
  import opened Ordering

  type Uid = nat

  datatype CycleScore = CycleScore(packetDigest: string, orderingKey: int, score: real)

  type Earning = map<Uid, seq<CycleScore>>

  type Cursors = map<Uid, Option<int>>

  datatype Manifest = Manifest(earning: Earning, cursors: Cursors)

  datatype CursorError = Replay | Unordered | NotDerived

  function KeyOf(c: CycleScore): int { c.orderingKey }

  // -- what the maps mean ------------------------------------------------------------

  function Earliest(s: seq<CycleScore>): (r: int)
    requires s != []
    ensures forall i :: 0 <= i < |s| ==> r <= s[i].orderingKey
    ensures exists i :: 0 <= i < |s| && r == s[i].orderingKey
  {
    if |s| == 1 then s[0].orderingKey
    else
      var r := Earliest(s[1..]);
      if s[0].orderingKey <= r then s[0].orderingKey else r
  }

  function Latest(s: seq<CycleScore>): (r: int)
    requires s != []
    ensures forall i :: 0 <= i < |s| ==> s[i].orderingKey <= r
    ensures exists i :: 0 <= i < |s| && r == s[i].orderingKey
  {
    if |s| == 1 then s[0].orderingKey
    else
      var r := Latest(s[1..]);
      if s[0].orderingKey <= r then r else s[0].orderingKey
  }

  predicate Folds(earning: Earning, u: Uid) { u in earning && earning[u] != [] }

  /** Every uid of the census that was never seen gets the cursor None. */
  function Observed(base: Cursors, census: seq<Uid>): Cursors {
    map u | u in base.Keys + Uids(census) :: if u in base then base[u] else None
  }

  function Uids(s: seq<Uid>): set<Uid> { set u | u in s }

  /** Every uid that folds moves to its highest key. */
  function Advanced(base: Cursors, earning: Earning): Cursors {
    map u | u in base.Keys + (set u | u in earning && earning[u] != []) ::
      if Folds(earning, u) then Some(Latest(earning[u])) else base[u]
  }

  /** Some uid folds a key it may have folded in an earlier epoch. */
  ghost predicate Replays(base: Cursors, earning: Earning) {
    exists u :: Folds(earning, u) && ReplaysFor(base, earning, u)
  }

  predicate ReplaysFor(base: Cursors, earning: Earning, u: Uid)
    requires Folds(earning, u)
  {
    u in base && base[u].Some? && Earliest(earning[u]) <= base[u].value
  }

  ghost function Total(prior: Cursors, census: seq<Uid>, earning: Earning): Cursors {
    Advanced(Observed(prior, census), earning)
  }

  // -- the builder ---------------------------------------------------------------------

  /** The cycles of one uid in order of arrival. */
  function ScoresOf(cycles: seq<(Uid, CycleScore)>, u: Uid): seq<CycleScore> {
    if cycles == [] then []
    else
      var rest := ScoresOf(cycles[..|cycles| - 1], u);
      if cycles[|cycles| - 1].0 == u then rest + [cycles[|cycles| - 1].1] else rest
  }

  function FoldOrder(cycles: seq<(Uid, CycleScore)>, u: Uid): seq<CycleScore> {
    SortBy(ScoresOf(cycles, u), KeyOf)
  }

  function CycleUids(cycles: seq<(Uid, CycleScore)>): set<Uid> { set c | c in cycles :: c.0 }

  /** `carry` are the uids with an earning row and a carried accumulate score. */
  function EarningOf(cycles: seq<(Uid, CycleScore)>, carry: set<Uid>): Earning {
    map u | u in CycleUids(cycles) + carry :: FoldOrder(cycles, u)
  }

  /** `EarningInput` refuses anything but strictly ascending keys. */
  predicate StrictlyAscending(s: seq<CycleScore>) {
    forall i, j :: 0 <= i < j < |s| ==> s[i].orderingKey < s[j].orderingKey
  }

  ghost predicate Ordered(earning: Earning) {
    forall u :: u in earning ==> StrictlyAscending(earning[u])
  }

  ghost function Built(cycles: seq<(Uid, CycleScore)>, carry: set<Uid>, prior: Cursors, census: seq<Uid>)
    : Result<Manifest, CursorError>
  {
    var earning := EarningOf(cycles, carry);
    if !Ordered(earning) then Failure(Unordered)
    else if Replays(prior, earning) then Failure(Replay)
    else Success(Manifest(earning, Total(prior, census, earning)))
  }

  /** The map while the uids of `todo` are still to come. */
  ghost function Progress(base: Cursors, earning: Earning, todo: set<Uid>): Cursors {
    Advanced(base, map u | u in earning && u !in todo :: earning[u])
  }

  ghost predicate CleanSoFar(base: Cursors, earning: Earning, todo: set<Uid>) {
    forall u :: Folds(earning, u) && u !in todo ==> !ReplaysFor(base, earning, u)
  }

  lemma ProgressOnce(base: Cursors, earning: Earning, todo: set<Uid>, u: Uid)
    requires u in todo && todo <= earning.Keys
    ensures Progress(base, earning, todo - {u}) ==
            if earning[u] == [] then Progress(base, earning, todo)
            else Progress(base, earning, todo)[u := Some(Latest(earning[u]))]
    ensures u in Progress(base, earning, todo) <==> u in base
    ensures u in base ==> Progress(base, earning, todo)[u] == base[u]
  {}

  lemma ProgressEnds(base: Cursors, earning: Earning)
    ensures Progress(base, earning, earning.Keys) == base
    ensures Progress(base, earning, {}) == Advanced(base, earning)
    ensures CleanSoFar(base, earning, earning.Keys)
    ensures CleanSoFar(base, earning, {}) <==> !Replays(base, earning)
  {
    NothingToDo(earning);
    EverythingToDo(base, earning);
    CleanMeansNoReplay(base, earning);
  }

  lemma CleanMeansNoReplay(base: Cursors, earning: Earning)
    ensures CleanSoFar(base, earning, {}) <==> !Replays(base, earning)
    ensures CleanSoFar(base, earning, earning.Keys)
  {}

  lemma NothingToDo(earning: Earning)
    ensures (map u | u in earning && u !in {} :: earning[u]) == earning
  {}

  lemma EverythingToDo(base: Cursors, earning: Earning)
    ensures Progress(base, earning, earning.Keys) == base
  {}

  lemma {:induction false} ScoresOfNobody(cycles: seq<(Uid, CycleScore)>, u: Uid)
    ensures ScoresOf(cycles, u) == [] <==> u !in CycleUids(cycles)
  {
    if cycles != [] {
      var n := |cycles| - 1;
      ScoresOfNobody(cycles[..n], u);
      assert cycles == cycles[..n] + [cycles[n]];
      assert CycleUids(cycles) == CycleUids(cycles[..n]) + {cycles[n].0};
    }
  }

  /** The grouping loop of `build_audit_manifest`: rows are appended under their uid as they come. */
  method Grouped(cycles: seq<(Uid, CycleScore)>) returns (scores: map<Uid, seq<CycleScore>>)
    ensures scores == map u | u in CycleUids(cycles) :: ScoresOf(cycles, u)
  {
    scores := map[];
    for i := 0 to |cycles|
      invariant scores == map u | u in CycleUids(cycles[..i]) :: ScoresOf(cycles[..i], u)
    {
      var (u, c) := cycles[i];
      ScoresOfNobody(cycles[..i], u);
      assert cycles[..i + 1][..i] == cycles[..i];
      assert CycleUids(cycles[..i + 1]) == CycleUids(cycles[..i]) + {u};
      scores := scores[u := (if u in scores then scores[u] else []) + [c]];
    }
    assert cycles[..|cycles|] == cycles;
  }

  /** The census loop that all three derivations share. */
  method Observe(base: Cursors, census: seq<Uid>) returns (cursors: Cursors)
    ensures cursors == Observed(base, census)
  {
    cursors := base;
    assert Observed(base, census[..0]) == base;
    for i := 0 to |census|
      invariant cursors == Observed(base, census[..i])
    {
      assert Uids(census[..i + 1]) == Uids(census[..i]) + {census[i]};
      if census[i] !in cursors {
        cursors := cursors[census[i] := None];
      }
    }
    assert census[..|census|] == census;
  }

  lemma ObservedReplaysTheSame(base: Cursors, census: seq<Uid>, earning: Earning)
    ensures Replays(Observed(base, census), earning) <==> Replays(base, earning)
  {
    forall u | Folds(earning, u)
      ensures ReplaysFor(Observed(base, census), earning, u) <==> ReplaysFor(base, earning, u)
    {}
  }

  method Pick(uids: set<Uid>) returns (u: Uid)
    requires uids != {}
    ensures u in uids
  {
    u :| u in uids;
  }

  /** The cursor loop: compare each uid's earliest key with its cursor, then move it to the latest. */
  method Advance(base: Cursors, earning: Earning) returns (r: Result<Cursors, CursorError>)
    ensures r == if Replays(base, earning) then Failure(Replay) else Success(Advanced(base, earning))
  {
    var cursors := base;
    var todo := earning.Keys;
    ProgressEnds(base, earning);
    while todo != {}
      invariant todo <= earning.Keys
      invariant cursors == Progress(base, earning, todo) && CleanSoFar(base, earning, todo)
      decreases |todo|
    {
      var u := Pick(todo);
      ProgressOnce(base, earning, todo, u);
      if earning[u] != [] {
        if u in cursors && cursors[u].Some? && Earliest(earning[u]) <= cursors[u].value {
          assert Folds(earning, u) && ReplaysFor(base, earning, u);
          return Failure(Replay);
        }
        cursors := cursors[u := Some(Latest(earning[u]))];
      }
      todo := todo - {u};
    }
    return Success(cursors);
  }

  function SortedScores(scores: map<Uid, seq<CycleScore>>, u: Uid): seq<CycleScore> {
    SortBy(if u in scores then scores[u] else [], KeyOf)
  }

  lemma SortedScoresAreEarning(cycles: seq<(Uid, CycleScore)>, scores: map<Uid, seq<CycleScore>>, carry: set<Uid>)
    requires scores == map v | v in CycleUids(cycles) :: ScoresOf(cycles, v)
    ensures EarningOf(cycles, carry) == map u | u in scores.Keys + carry :: SortedScores(scores, u)
  {
    forall u | u in CycleUids(cycles) + carry ensures SortedScores(scores, u) == FoldOrder(cycles, u) {
      ScoresOfNobody(cycles, u);
    }
  }

  method Refused(earning: Earning) returns (refused: bool)
    ensures refused <==> !Ordered(earning)
  {
    refused := exists u | u in earning :: !StrictlyAscending(earning[u]);
  }

  method EarningInputs(cycles: seq<(Uid, CycleScore)>, carry: set<Uid>) returns (r: Result<Earning, CursorError>)
    ensures r == if Ordered(EarningOf(cycles, carry)) then Success(EarningOf(cycles, carry)) else Failure(Unordered)
  {
    var scores := Grouped(cycles);
    SortedScoresAreEarning(cycles, scores, carry);
    var earning: Earning := map u | u in scores.Keys + carry :: SortedScores(scores, u);
    var refused := Refused(earning);
    return if refused then Failure(Unordered) else Success(earning);
  }

  /** The part of `build_audit_manifest` that decides folds and cursors. */
  method BuildAuditManifest(cycles: seq<(Uid, CycleScore)>, carry: set<Uid>, prior: Option<Cursors>, census: seq<Uid>)
    returns (r: Result<Manifest, CursorError>)
    ensures r == Built(cycles, carry, if prior.Some? then prior.value else map[], census)
  {
    var base := if prior.Some? then prior.value else map[];
    var observed := Observe(base, census);
    var earning := EarningInputs(cycles, carry);
    if earning.Failure? {
      return Failure(earning.error);
    }
    ObservedReplaysTheSame(base, census, earning.value);
    var advanced := Advance(observed, earning.value);
    if advanced.Failure? {
      return Failure(advanced.error);
    }
    return Success(Manifest(earning.value, advanced.value));
  }

  // -- the authority service -----------------------------------------------------------

  /** The three claims a caller-built manifest may make. */
  ghost predicate Derivable(claimed: Cursors, prior: Cursors, census: seq<Uid>, earning: Earning) {
    claimed == Advanced(map[], earning) || claimed == Advanced(prior, earning) ||
      claimed == Total(prior, census, earning)
  }

  ghost function ServiceBound(m: Manifest, prior: Cursors, census: seq<Uid>): Result<Manifest, CursorError> {
    if Replays(prior, m.earning) then Failure(Replay)
    else if !Derivable(m.cursors, prior, census, m.earning) then Failure(NotDerived)
    else Success(m.(cursors := Total(prior, census, m.earning)))
  }

  /** One uid moves in a candidate map. */
  ghost predicate Moved(before: Cursors, after: Cursors, scores: seq<CycleScore>, u: Uid) {
    after == if scores == [] then before else before[u := Some(Latest(scores))]
  }

  lemma ProgressMoves(base: Cursors, earning: Earning, todo: set<Uid>, u: Uid, after: Cursors)
    requires u in todo && todo <= earning.Keys && Moved(Progress(base, earning, todo), after, earning[u], u)
    ensures after == Progress(base, earning, todo - {u})
  {
    ProgressOnce(base, earning, todo, u);
  }

  lemma CleanOnce(base: Cursors, earning: Earning, todo: set<Uid>, u: Uid)
    requires u in todo && todo <= earning.Keys && CleanSoFar(base, earning, todo)
    ensures u in Progress(base, earning, todo) <==> u in base
    ensures u in base ==> Progress(base, earning, todo)[u] == base[u]
    ensures !Folds(earning, u) || !ReplaysFor(base, earning, u) ==> CleanSoFar(base, earning, todo - {u})
    ensures Folds(earning, u) && ReplaysFor(base, earning, u) ==> Replays(base, earning)
  {}

  /** Where the three candidate maps stand while the uids of `todo` are still to come. */
  ghost predicate CandidatesAt(earning: Earning, prior: Cursors, observed: Cursors, todo: set<Uid>,
                               currentOnly: Cursors, predecessorPlusCurrent: Cursors, expected: Cursors)
  {
    && todo <= earning.Keys && CleanSoFar(observed, earning, todo)
    && currentOnly == Progress(map[], earning, todo)
    && predecessorPlusCurrent == Progress(prior, earning, todo)
    && expected == Progress(observed, earning, todo)
  }

  lemma CandidatesMove(earning: Earning, prior: Cursors, observed: Cursors, todo: set<Uid>, u: Uid,
                       a: Cursors, b: Cursors, c: Cursors, a': Cursors, b': Cursors, c': Cursors)
    requires CandidatesAt(earning, prior, observed, todo, a, b, c) && u in todo
    requires Moved(a, a', earning[u], u) && Moved(b, b', earning[u], u) && Moved(c, c', earning[u], u)
    requires !Folds(earning, u) || !ReplaysFor(observed, earning, u)
    ensures CandidatesAt(earning, prior, observed, todo - {u}, a', b', c')
  {
    CleanOnce(observed, earning, todo, u);
    ProgressMoves(map[], earning, todo, u, a');
    ProgressMoves(prior, earning, todo, u, b');
    ProgressMoves(observed, earning, todo, u, c');
  }

  lemma CandidatesStart(earning: Earning, prior: Cursors, observed: Cursors)
    ensures CandidatesAt(earning, prior, observed, earning.Keys, map[], prior, observed)
  {
    ProgressEnds(map[], earning);
    ProgressEnds(prior, earning);
    ProgressEnds(observed, earning);
  }

  /** One pass over the earning inputs moves the three candidate maps together. */
  method Candidates(earning: Earning, prior: Cursors, observed: Cursors)
    returns (replay: bool, currentOnly: Cursors, predecessorPlusCurrent: Cursors, expected: Cursors)
    ensures replay <==> Replays(observed, earning)
    ensures !replay ==> currentOnly == Advanced(map[], earning) && predecessorPlusCurrent == Advanced(prior, earning)
                        && expected == Advanced(observed, earning)
  {
    currentOnly, predecessorPlusCurrent, expected := map[], prior, observed;
    var todo := earning.Keys;
    CandidatesStart(earning, prior, observed);
    while todo != {}
      invariant CandidatesAt(earning, prior, observed, todo, currentOnly, predecessorPlusCurrent, expected)
      decreases |todo|
    {
      var u := Pick(todo);
      ghost var a, b, c := currentOnly, predecessorPlusCurrent, expected;
      CleanOnce(observed, earning, todo, u);
      if earning[u] != [] {
        if u in expected && expected[u].Some? && Earliest(earning[u]) <= expected[u].value {
          return true, currentOnly, predecessorPlusCurrent, expected;
        }
        var latest := Some(Latest(earning[u]));
        currentOnly := currentOnly[u := latest];
        predecessorPlusCurrent := predecessorPlusCurrent[u := latest];
        expected := expected[u := latest];
      }
      CandidatesMove(earning, prior, observed, todo, u, a, b, c, currentOnly, predecessorPlusCurrent, expected);
      todo := todo - {u};
    }
    ProgressEnds(map[], earning);
    ProgressEnds(prior, earning);
    ProgressEnds(observed, earning);
    replay := false;
  }

  method BindFoldCursors(m: Manifest, prior: Cursors, census: seq<Uid>) returns (r: Result<Manifest, CursorError>)
    ensures r == ServiceBound(m, prior, census)
  {
    var observed := Observe(prior, census);
    ObservedReplaysTheSame(prior, census, m.earning);
    var replay, currentOnly, predecessorPlusCurrent, expected := Candidates(m.earning, prior, observed);
    if replay {
      return Failure(Replay);
    }
    if m.cursors != currentOnly && m.cursors != predecessorPlusCurrent && m.cursors != expected {
      return Failure(NotDerived);
    }
    return Success(if m.cursors == expected then m else m.(cursors := expected));
  }

  // -- the finalizer ---------------------------------------------------------------------

  ghost function FinalizerBound(m: Manifest, prior: Option<Cursors>, census: seq<Uid>): Result<Manifest, CursorError> {
    if prior.None? then Success(m.(cursors := Observed(m.cursors, census)))
    else if Replays(prior.value, m.earning) then Failure(Replay)
    else if m.cursors != Total(prior.value, census, m.earning) then Failure(NotDerived)
    else Success(m)
  }

  method BindCompleteFoldCursors(m: Manifest, prior: Option<Cursors>, census: seq<Uid>)
    returns (r: Result<Manifest, CursorError>)
    ensures r == FinalizerBound(m, prior, census)
  {
    var base := if prior.Some? then prior.value else map[];
    var observed := Observe(base, census);
    ObservedReplaysTheSame(base, census, m.earning);
    var expected := Advance(observed, m.earning);
    if expected.Failure? {
      return Failure(expected.error);
    }
    if prior.None? {
      var completed := Observe(m.cursors, census);
      return Success(if completed == m.cursors then m else m.(cursors := completed));
    }
    return if m.cursors != expected.value then Failure(NotDerived) else Success(m);
  }

  // -- the maps uid by uid ------------------------------------------------------------------

  /** Every uid with a cycle or a carried score has its inputs, those with a carried score alone an empty
      list: exactly its own cycles, in ascending order of the key. */
  lemma EarningIsGrouped(cycles: seq<(Uid, CycleScore)>, carry: set<Uid>, u: Uid)
    ensures u in EarningOf(cycles, carry) <==> u in carry || exists c :: c in cycles && c.0 == u
    ensures u in EarningOf(cycles, carry) ==>
              && (forall c :: multiset(EarningOf(cycles, carry)[u])[c] == multiset(cycles)[(u, c)])
              && (forall i, j :: 0 <= i < j < |EarningOf(cycles, carry)[u]| ==>
                    EarningOf(cycles, carry)[u][i].orderingKey <= EarningOf(cycles, carry)[u][j].orderingKey)
  {
    if u in EarningOf(cycles, carry) {
      var s := FoldOrder(cycles, u);
      forall c ensures multiset(s)[c] == multiset(cycles)[(u, c)] { ScoresCount(cycles, u, c); }
      forall i, j | 0 <= i < j < |s| ensures s[i].orderingKey <= s[j].orderingKey {
        assert KeyOf(s[i]) <= KeyOf(s[j]);
      }
    }
  }

  /** The total map: whoever was in the predecessor's map, is in the census or folds has a cursor; it is
      the highest key folded now, else the old cursor, else None. */
  lemma TotalIs(prior: Cursors, census: seq<Uid>, earning: Earning, u: Uid)
    ensures u in Total(prior, census, earning) <==>
              u in prior || u in census || (u in earning && earning[u] != [])
    ensures u in earning && earning[u] != [] ==>
              var cursor := Total(prior, census, earning)[u];
              && cursor.Some? && (exists i :: 0 <= i < |earning[u]| && earning[u][i].orderingKey == cursor.value)
              && forall i :: 0 <= i < |earning[u]| ==> earning[u][i].orderingKey <= cursor.value
    ensures u in Total(prior, census, earning) && !(u in earning && earning[u] != []) ==>
              Total(prior, census, earning)[u] == if u in prior then prior[u] else None
  {}

  /** A replay is a key at or below the uid's cursor, and nothing else is. */
  lemma ReplaysExactlyWhen(base: Cursors, earning: Earning)
    ensures Replays(base, earning) <==>
              exists u :: u in earning && u in base && ReachesBack(earning[u], base[u])
  {
    forall u | u in earning && u in base && earning[u] != []
      ensures ReplaysFor(base, earning, u) <==> ReachesBack(earning[u], base[u])
    {}
    if Replays(base, earning) {
      var u :| Folds(earning, u) && ReplaysFor(base, earning, u);
      assert u in earning && u in base && ReachesBack(earning[u], base[u]);
    }
    if u :| u in earning && u in base && ReachesBack(earning[u], base[u]) {
      assert Folds(earning, u) && ReplaysFor(base, earning, u);
    }
  }

  ghost predicate ReachesBack(scores: seq<CycleScore>, cursor: Option<int>) {
    cursor.Some? && exists i :: 0 <= i < |scores| && scores[i].orderingKey <= cursor.value
  }

  /** The builder's manifest, exactly: within every uid the keys ascend strictly and none reaches back. */
  lemma BuildsExactlyWhen(cycles: seq<(Uid, CycleScore)>, carry: set<Uid>, prior: Cursors, census: seq<Uid>)
    ensures var r, earning := Built(cycles, carry, prior, census), EarningOf(cycles, carry);
            && (r.Success? <==>
                  && (forall u, i, j :: u in earning && 0 <= i < j < |earning[u]| ==>
                        earning[u][i].orderingKey < earning[u][j].orderingKey)
                  && (forall u :: u in earning && u in prior ==> !ReachesBack(earning[u], prior[u])))
            && (r.Success? ==> r.value == Manifest(earning, Total(prior, census, earning)))
  {
    var earning := EarningOf(cycles, carry);
    ReplaysExactlyWhen(prior, earning);
    assert Ordered(earning) <==> forall u :: u in earning ==> StrictlyAscending(earning[u]);
  }

  /** Without a predecessor the finalizer keeps what the manifest claims and completes the census. */
  lemma FirstEpochCompletes(m: Manifest, census: seq<Uid>, u: Uid)
    ensures var r := FinalizerBound(m, None, census);
            && r.Success? && r.value.earning == m.earning
            && (u in r.value.cursors <==> u in m.cursors || u in census)
            && (u in m.cursors ==> r.value.cursors[u] == m.cursors[u])
            && (u in census && u !in m.cursors ==> r.value.cursors[u] == None)
  {}

  // -- the derivations agree ----------------------------------------------------------------

  /** The ways the builder is called: before the predecessor is known, with it, with it and the census. */
  predicate BuilderForm(given: Cursors, known: seq<Uid>, prior: Cursors, census: seq<Uid>) {
    (given == map[] && known == []) || (given == prior && (known == [] || known == census))
  }

  /** Whatever the builder was told, the service binds its manifest exactly when no uid replays a
      key; the bound map is the one the finalizer derives on its own, and the finalizer accepts it
      unchanged. A builder that knew the predecessor refuses just the same replays itself. */
  lemma DerivationsAgree(cycles: seq<(Uid, CycleScore)>, carry: set<Uid>, given: Cursors, known: seq<Uid>,
                         prior: Cursors, census: seq<Uid>)
    requires BuilderForm(given, known, prior, census) && Ordered(EarningOf(cycles, carry))
    ensures var built := Built(cycles, carry, given, known);
            var replays := Replays(prior, EarningOf(cycles, carry));
            && (given == prior ==> (built.Failure? <==> replays))
            && (built.Success? ==>
                  var bound := ServiceBound(built.value, prior, census);
                  && (bound.Failure? <==> replays)
                  && (bound.Success? ==> FinalizerBound(bound.value, Some(prior), census) == bound
                                         && bound.value.cursors == Total(prior, census, built.value.earning)))
  {
    var earning := EarningOf(cycles, carry);
    assert Observed(prior, []) == prior && Observed(map[], []) == map[];
    if given == map[] && known == [] {
      assert !Replays(given, earning);
    }
  }

  /** The order the cycles arrive in never matters: either both are refused, or both give the same
      manifest. */
  lemma ArrivalOrderIgnored(a: seq<(Uid, CycleScore)>, b: seq<(Uid, CycleScore)>, carry: set<Uid>,
                            prior: Cursors, census: seq<Uid>)
    requires multiset(a) == multiset(b)
    ensures Built(a, carry, prior, census) == Built(b, carry, prior, census)
  {
    if Ordered(EarningOf(a, carry)) {
      OrderedIgnoresArrival(a, b, carry);
    } else if Ordered(EarningOf(b, carry)) {
      OrderedIgnoresArrival(b, a, carry);
    }
  }

  lemma OrderedIgnoresArrival(a: seq<(Uid, CycleScore)>, b: seq<(Uid, CycleScore)>, carry: set<Uid>)
    requires multiset(a) == multiset(b) && Ordered(EarningOf(a, carry))
    ensures EarningOf(a, carry) == EarningOf(b, carry)
  {
    SameUids(a, b);
    forall u | u in CycleUids(a) + carry ensures FoldOrder(a, u) == FoldOrder(b, u) {
      OrderedUid(a, carry, u);
      FoldOrderIgnoresArrival(a, b, u);
    }
  }

  lemma OrderedUid(a: seq<(Uid, CycleScore)>, carry: set<Uid>, u: Uid)
    requires Ordered(EarningOf(a, carry)) && u in CycleUids(a) + carry
    ensures StrictlyAscending(FoldOrder(a, u))
  {
    assert u in EarningOf(a, carry) && EarningOf(a, carry)[u] == FoldOrder(a, u);
  }

  lemma SameUids(a: seq<(Uid, CycleScore)>, b: seq<(Uid, CycleScore)>)
    requires multiset(a) == multiset(b)
    ensures CycleUids(a) == CycleUids(b)
  {
    forall c ensures c in a <==> c in b { assert c in multiset(a) <==> c in multiset(b); }
  }

  lemma {:induction false} ScoresCount(cycles: seq<(Uid, CycleScore)>, u: Uid, c: CycleScore)
    ensures multiset(ScoresOf(cycles, u))[c] == multiset(cycles)[(u, c)]
  {
    if cycles != [] {
      var n := |cycles| - 1;
      ScoresCount(cycles[..n], u, c);
      assert cycles == cycles[..n] + [cycles[n]];
      assert multiset(cycles) == multiset(cycles[..n]) + multiset{cycles[n]};
    }
  }

  lemma FoldOrderIgnoresArrival(a: seq<(Uid, CycleScore)>, b: seq<(Uid, CycleScore)>, u: Uid)
    requires multiset(a) == multiset(b) && StrictlyAscending(FoldOrder(a, u))
    ensures FoldOrder(a, u) == FoldOrder(b, u)
  {
    forall c ensures multiset(ScoresOf(a, u))[c] == multiset(ScoresOf(b, u))[c] {
      ScoresCount(a, u, c);
      ScoresCount(b, u, c);
    }
    StrictMeansDistinct(FoldOrder(a, u));
    AscendingIsUnique(FoldOrder(a, u), FoldOrder(b, u), KeyOf);
  }

  lemma StrictMeansDistinct(s: seq<CycleScore>)
    requires StrictlyAscending(s)
    ensures KeysDistinct(s, KeyOf)
  {
    forall x, y | x in s && y in s && KeyOf(x) == KeyOf(y) ensures x == y {
      var i :| 0 <= i < |s| && s[i] == x;
      var j :| 0 <= j < |s| && s[j] == y;
      assert i == j;
    }
  }

  // -- the chain of epochs ------------------------------------------------------------------

  datatype Epoch = Epoch(manifest: Manifest, census: seq<Uid>)

  /** The cursors after a chain of epochs, each fed its predecessor's map, or None if the finalizer
      refuses one of them. Genesis starts from the empty map. */
  ghost function Chain(epochs: seq<Epoch>): Option<Cursors> {
    if epochs == [] then Some(map[])
    else
      var n := |epochs| - 1;
      var prior := Chain(epochs[..n]);
      if prior.None? then None
      else
        match FinalizerBound(epochs[n].manifest, prior, epochs[n].census)
        case Success(m) => Some(m.cursors)
        case Failure(_) => None
  }

  ghost predicate FoldsKey(e: Epoch, u: Uid, k: int) {
    && Folds(e.manifest.earning, u)
    && exists i :: 0 <= i < |e.manifest.earning[u]| && e.manifest.earning[u][i].orderingKey == k
  }

  ghost predicate FoldedEver(epochs: seq<Epoch>, u: Uid, k: int) {
    exists i :: 0 <= i < |epochs| && FoldsKey(epochs[i], u, k)
  }

  /** A cursor is the maximum of all keys the uid ever folded, and None if it never folded. */
  ghost predicate CursorsMeanFolds(epochs: seq<Epoch>, cursors: Cursors) {
    && (forall u, k :: FoldedEver(epochs, u, k) ==> u in cursors && cursors[u].Some? && k <= cursors[u].value)
    && (forall u :: u in cursors && cursors[u].Some? ==> FoldedEver(epochs, u, cursors[u].value))
  }

  lemma {:induction false} CursorIsTheMaximum(epochs: seq<Epoch>)
    requires Chain(epochs).Some?
    ensures CursorsMeanFolds(epochs, Chain(epochs).value)
  {
    if epochs != [] {
      var n := |epochs| - 1;
      CursorIsTheMaximum(epochs[..n]);
      var prior, last := Chain(epochs[..n]).value, epochs[n];
      LastEpochAdvances(prior, last);
      forall u, k ensures FoldedEver(epochs, u, k) <==> FoldedEver(epochs[..n], u, k) || FoldsKey(last, u, k) {
        if FoldedEver(epochs[..n], u, k) {
          var i :| 0 <= i < n && FoldsKey(epochs[..n][i], u, k);
          assert FoldsKey(epochs[i], u, k);
        }
        if FoldedEver(epochs, u, k) {
          var i :| 0 <= i <= n && FoldsKey(epochs[i], u, k);
          if i < n { assert FoldsKey(epochs[..n][i], u, k); }
        }
      }
    }
  }

  /** One accepted epoch: folding uids move up to their own maximum, the others keep their cursor. */
  lemma LastEpochAdvances(prior: Cursors, e: Epoch)
    requires FinalizerBound(e.manifest, Some(prior), e.census).Success?
    ensures var after := FinalizerBound(e.manifest, Some(prior), e.census).value.cursors;
            && prior.Keys <= after.Keys && Uids(e.census) <= after.Keys
            && (forall u, k :: FoldsKey(e, u, k) ==> u in after && after[u].Some? && k <= after[u].value)
            && (forall u, k :: FoldsKey(e, u, k) && u in prior && prior[u].Some? ==> prior[u].value < k)
            && (forall u :: u in after && after[u].Some? ==>
                  FoldsKey(e, u, after[u].value) || (u in prior && prior[u] == after[u]))
            && (forall u :: u in prior && prior[u].Some? ==> after[u].Some? && prior[u].value <= after[u].value)
  {
    var earning := e.manifest.earning;
    var after := FinalizerBound(e.manifest, Some(prior), e.census).value.cursors;
    assert after == Total(prior, e.census, earning);
    forall u | Folds(earning, u)
      ensures FoldsKey(e, u, Latest(earning[u])) && !ReplaysFor(prior, earning, u)
    {
      var i :| 0 <= i < |earning[u]| && Latest(earning[u]) == earning[u][i].orderingKey;
      assert earning[u][i].orderingKey == Latest(earning[u]);
    }
    forall u, k | FoldsKey(e, u, k) && u in prior && prior[u].Some? ensures prior[u].value < k {
      assert !ReplaysFor(prior, earning, u);
    }
  }

  /** No key is ever folded again: whatever a uid folds in a later epoch is above everything it
      folded in an earlier one. */
  lemma NoCrossEpochReplay(epochs: seq<Epoch>, i: nat, j: nat, u: Uid, a: int, b: int)
    requires Chain(epochs).Some? && i < j < |epochs| && FoldsKey(epochs[i], u, a) && FoldsKey(epochs[j], u, b)
    ensures a < b
  {
    PrefixAccepted(epochs, j + 1);
    assert epochs[..j + 1][..j] == epochs[..j];
    CursorIsTheMaximum(epochs[..j]);
    assert FoldsKey(epochs[..j][i], u, a);
    assert FoldedEver(epochs[..j], u, a);
    LastEpochAdvances(Chain(epochs[..j]).value, epochs[j]);
  }

  lemma {:induction false} PrefixAccepted(epochs: seq<Epoch>, n: nat)
    requires Chain(epochs).Some? && n <= |epochs|
    ensures Chain(epochs[..n]).Some? && Chain(epochs[..n]).value.Keys <= Chain(epochs).value.Keys
    decreases |epochs|
  {
    if n == |epochs| {
      assert epochs[..n] == epochs;
    } else {
      var m := |epochs| - 1;
      PrefixAccepted(epochs[..m], n);
      assert epochs[..m][..n] == epochs[..n];
      LastEpochAdvances(Chain(epochs[..m]).value, epochs[m]);
    }
  }

  /** An identity that was in some census or folded once has a cursor for ever. */
  lemma NoUidLeaves(epochs: seq<Epoch>, i: nat, u: Uid)
    requires Chain(epochs).Some? && i < |epochs| && (u in epochs[i].census || Folds(epochs[i].manifest.earning, u))
    ensures u in Chain(epochs).value
  {
    PrefixAccepted(epochs, i + 1);
    assert epochs[..i + 1][..i] == epochs[..i];
    LastEpochAdvances(Chain(epochs[..i]).value, epochs[i]);
    if Folds(epochs[i].manifest.earning, u) {
      assert FoldsKey(epochs[i], u, epochs[i].manifest.earning[u][0].orderingKey);
    }
  }
}
