/** The tolerance comparison of a recorded score packet with an independent recompute
    (vidaio/audit/recompute.py): which overrides of the shipped tolerances are allowed, when a flipped
    gate may be excused, and what an accepted comparison therefore means. Finite floats are reals;
    NaN and the infinities behave as IEEE 754 makes Python's comparisons behave. */
module Hysteresis {
  import opened Wrappers

  datatype Num = Fin(r: real) | NaN | PosInf | NegInf

  /** A JSON value where the code looks for a number. */
  datatype Value = Number(n: Num) | Flag(b: bool) | Other

  function Abs(x: real): (r: real)
    ensures r >= 0.0 && (r == x || r == -x)
  {
    if x < 0.0 then -x else x
  }

  /** `abs(a - b) <= allowed` */
  predicate Within(a: Num, b: Num, allowed: real) { a.Fin? && b.Fin? && Abs(a.r - b.r) <= allowed }

  /** `abs(a - b) > allowed`, which is not the negation: a NaN difference is neither. */
  predicate Exceeds(a: Num, b: Num, allowed: real) {
    if a.Fin? && b.Fin? then Abs(a.r - b.r) > allowed else a != b && !a.NaN? && !b.NaN?
  }

  // -- tolerances -----------------------------------------------------------------------

  type Tolerances = map<string, real>

  const DEFAULT_TOLERANCES: Tolerances := map[
    "vmaf" := 0.05, "vmaf_secondary" := 0.05, "vmaf_model_delta_primary" := 0.05, "vmaf_model_delta" := 0.10,
    "pieapp" := 0.00001,
    "tone_manipulation_measure" := 0.000000001, "color_grayscale_measure" := 0.000000001,
    "chroma_uv_measure" := 0.000000001,
    "vmaf_residual" := 0.10, "psnr_uv_reference" := 0.000001, "psnr_uv_input" := 0.000001,
    "chroma_residual" := 0.000001,
    "region_psnr_db" := 0.000001, "region_floor_psnr_db" := 0.000001, "region_psnr_margin_db" := 0.000001,
    "region_ssim" := 0.000001, "region_lpips_vgg" := 0.00001, "region_floor_lpips_vgg" := 0.00001,
    "region_warp_error" := 0.0001, "region_warp_error_reference" := 0.0001, "region_warp_cap" := 0.0001,
    "region_outside_change" := 0.000001, "mask_fraction" := 0.000000001,
    "final_score" := 0.00001, "score" := 0.00001]

  function Allowed(tol: Tolerances, metric: string): real {
    if metric in tol then tol[metric] else 0.0
  }

  /** An override may only narrow; what the release does not list has the ceiling zero. */
  predicate Narrows(shipped: Tolerances, metric: string, value: Value) {
    metric != "" && value.Number? && value.n.Fin? && 0.0 <= value.n.r <= Allowed(shipped, metric)
  }

  ghost predicate AllNarrow(shipped: Tolerances, overrides: map<string, Value>) {
    forall m :: m in overrides ==> Narrows(shipped, m, overrides[m])
  }

  ghost predicate NoWider(narrow: Tolerances, wide: Tolerances) {
    forall m :: Allowed(narrow, m) <= Allowed(wide, m)
  }

  /** The policy that overrides and release make together. */
  ghost predicate Resolves(shipped: Tolerances, overrides: map<string, Value>, tol: Tolerances)
    requires AllNarrow(shipped, overrides)
  {
    && tol.Keys == shipped.Keys + overrides.Keys
    && forall m :: m in tol ==> tol[m] == if m in overrides then overrides[m].n.r else shipped[m]
  }

  /** The overrides outside `todo` are in. */
  ghost predicate Partly(shipped: Tolerances, overrides: map<string, Value>, todo: set<string>, tol: Tolerances) {
    && todo <= overrides.Keys
    && (forall m :: m in overrides && m !in todo ==> Narrows(shipped, m, overrides[m]))
    && tol.Keys == shipped.Keys + (overrides.Keys - todo)
    && forall m :: m in tol ==> tol[m] == if m in overrides && m !in todo then overrides[m].n.r else shipped[m]
  }

  lemma PartlyOnce(shipped: Tolerances, overrides: map<string, Value>, todo: set<string>, tol: Tolerances, m: string)
    requires Partly(shipped, overrides, todo, tol) && m in todo && Narrows(shipped, m, overrides[m])
    ensures Partly(shipped, overrides, todo - {m}, tol[m := overrides[m].n.r])
  {}

  lemma AllIn(shipped: Tolerances, overrides: map<string, Value>, tol: Tolerances)
    requires Partly(shipped, overrides, {}, tol)
    ensures AllNarrow(shipped, overrides) && Resolves(shipped, overrides, tol) && NoWider(tol, shipped)
  {
    forall m ensures Allowed(tol, m) <= Allowed(shipped, m) {
      if m in overrides { assert Narrows(shipped, m, overrides[m]); }
    }
  }

  method Narrowed(shipped: Tolerances, overrides: map<string, Value>) returns (r: Result<Tolerances, ()>)
    ensures r.Success? <==> AllNarrow(shipped, overrides)
    ensures r.Success? ==> Resolves(shipped, overrides, r.value) && NoWider(r.value, shipped)
  {
    var resolved := shipped;
    var todo := overrides.Keys;
    while todo != {}
      invariant Partly(shipped, overrides, todo, resolved)
      decreases |todo|
    {
      var m :| m in todo;
      if !Narrows(shipped, m, overrides[m]) {
        return Failure(());
      }
      PartlyOnce(shipped, overrides, todo, resolved, m);
      resolved := resolved[m := overrides[m].n.r];
      todo := todo - {m};
    }
    AllIn(shipped, overrides, resolved);
    return Success(resolved);
  }

  /** `_resolve_tolerances`: the release with the overrides on top, never wider than the release. */
  method ResolveTolerances(overrides: map<string, Value>) returns (r: Result<Tolerances, ()>)
    ensures r.Success? <==> AllNarrow(DEFAULT_TOLERANCES, overrides)
    ensures r.Success? ==> Resolves(DEFAULT_TOLERANCES, overrides, r.value) && NoWider(r.value, DEFAULT_TOLERANCES)
  {
    r := Narrowed(DEFAULT_TOLERANCES, overrides);
  }

  // -- boundary facts ---------------------------------------------------------------------

  datatype Direction = BelowFails | AboveFails

  /** The gates with a numeric decision surface, their metric and the failing side. */
  function BoundaryMetric(code: string): Option<(string, Direction)> {
    match code
    case "VMAF_BELOW_FLOOR" => Some(("vmaf", BelowFails))
    case "VMAF_BELOW_THRESHOLD" => Some(("vmaf", BelowFails))
    case "VMAF_MODEL_DELTA_EXCEEDED" => Some(("vmaf_model_delta", AboveFails))
    case "COMPRESSION_RATE_TOO_HIGH" => Some(("compression_rate", AboveFails))
    case "TONE_MANIPULATION" => Some(("tone_manipulation_measure", AboveFails))
    case "COLOR_GRAYSCALE" => Some(("color_grayscale_measure", BelowFails))
    case "CHROMA_UV_MANIPULATION" => Some(("chroma_uv_measure", AboveFails))
    case "REGION_BASELINE_NOT_BEATEN" => Some(("region_psnr_margin_db", BelowFails))
    case "WARP_ERROR_EXCEEDED" => Some(("region_warp_error", AboveFails))
    case _ => None
  }

  datatype Fact = Fact(code: string, measured: Value, limit: Value)

  /** `Unreadable` is a violation that is no mapping. */
  datatype Violation = Readable(fact: Fact) | Unreadable

  datatype Breakdown =
    | Absent
    | Removal(zeroReason: string, psnr: Value, floor: Value, margin: Value, warp: Value, warpCap: Value)
    | Compression(zeroReason: string, vmaf: Value, threshold: Value)

  type Metrics = map<string, Num>

  /** One side of the comparison: the recorded packet or the independent recompute. */
  datatype Side = Side(metrics: Metrics, score: Num, gatePassed: bool, violations: seq<Violation>, breakdown: Breakdown)

  /** `float(v)` of anything Python counts as a real number, booleans included. */
  function AsReal(v: Value): Option<Num> {
    match v
    case Number(n) => Some(n)
    case Flag(b) => Some(Fin(if b then 1.0 else 0.0))
    case Other => None
  }

  function Minus(a: Num, b: Num): Num {
    if a.Fin? && b.Fin? then Fin(a.r - b.r)
    else if a.NaN? || b.NaN? || a == b then NaN
    else if a.PosInf? || b.NegInf? then PosInf
    else NegInf
  }

  /** The numeric fact behind a formula that scored zero, if there is one. */
  function FormulaBoundary(b: Breakdown): Option<Fact> {
    match b
    case Absent => None
    case Removal(reason, psnr, floor, margin, warp, cap) =>
      if reason == "REGION_BASELINE_NOT_BEATEN" then
        if AsReal(psnr).None? || AsReal(floor).None? then None
        else Some(Fact(reason, Number(Minus(AsReal(psnr).value, AsReal(floor).value)), margin))
      else if reason == "WARP_ERROR_EXCEEDED" then Some(Fact(reason, warp, cap))
      else None
    case Compression(reason, vmaf, threshold) =>
      if reason == "VMAF_BELOW_THRESHOLD" then Some(Fact(reason, vmaf, threshold)) else None
  }

  predicate FactTolerated(fact: Fact, failing: Metrics, passing: Metrics, tol: Tolerances) {
    var mapped := BoundaryMetric(fact.code);
    && mapped.Some? && fact.measured.Number? && fact.limit.Number?
    && var (metric, direction) := mapped.value;
    var measured, limit, allowed := fact.measured.n, fact.limit.n, Allowed(tol, metric);
    && metric in failing && metric in passing
    && measured.Fin? && limit.Fin? && failing[metric].Fin? && passing[metric].Fin? && allowed >= 0.0
    && !Exceeds(failing[metric], measured, allowed)
    && !Exceeds(failing[metric], passing[metric], allowed)
    && !Exceeds(measured, limit, allowed)
    && match direction
       case BelowFails => failing[metric].r < limit.r <= passing[metric].r
       case AboveFails => passing[metric].r <= limit.r < failing[metric].r
  }

  // -- hysteresis ------------------------------------------------------------------------

  predicate FormulaFlip(packet: Side, recomputed: Side) {
    && packet.gatePassed == recomputed.gatePassed
    && FormulaBoundary(packet.breakdown).None? != FormulaBoundary(recomputed.breakdown).None?
  }

  /** The facts that would have to be excused; None where nothing can be. */
  function Facts(packet: Side, recomputed: Side): Option<seq<Fact>> {
    if packet.gatePassed != recomputed.gatePassed then
      ReadFacts(if !packet.gatePassed then packet.violations else recomputed.violations)
    else if FormulaFlip(packet, recomputed) then
      var recorded := FormulaBoundary(packet.breakdown);
      Some([if recorded.Some? then recorded.value else FormulaBoundary(recomputed.breakdown).value])
    else None
  }

  function ReadFacts(violations: seq<Violation>): (r: Option<seq<Fact>>)
    ensures r.Some? <==> violations != [] && forall i :: 0 <= i < |violations| ==> violations[i].Readable?
    ensures r.Some? ==> |r.value| == |violations| && forall i :: 0 <= i < |violations| ==>
            r.value[i] == violations[i].fact
  {
    if violations == [] || violations[0].Unreadable? then None
    else if |violations| == 1 then Some([violations[0].fact])
    else
      var rest := ReadFacts(violations[1..]);
      if rest.None? then None else Some([violations[0].fact] + rest.value)
  }

  predicate RecordedFails(packet: Side, recomputed: Side) {
    !packet.gatePassed || (FormulaFlip(packet, recomputed) && FormulaBoundary(packet.breakdown).Some?)
  }

  /** Only the derived final score may differ, and only when the formula itself flipped. */
  function Exempt(packet: Side, recomputed: Side): set<string> {
    if FormulaFlip(packet, recomputed) then {"final_score"} else {}
  }

  predicate MetricsClose(packet: Side, recomputed: Side, tol: Tolerances) {
    forall m :: m in packet.metrics && m !in Exempt(packet, recomputed) ==>
      && Allowed(tol, m) >= 0.0
      && m in recomputed.metrics && !Exceeds(packet.metrics[m], recomputed.metrics[m], Allowed(tol, m))
  }

  predicate Excused(packet: Side, recomputed: Side, tol: Tolerances) {
    && packet.metrics.Keys == recomputed.metrics.Keys
    && Facts(packet, recomputed).Some?
    && MetricsClose(packet, recomputed, tol)
    && var failing := if RecordedFails(packet, recomputed) then packet.metrics else recomputed.metrics;
    var passing := if RecordedFails(packet, recomputed) then recomputed.metrics else packet.metrics;
    forall i :: 0 <= i < |Facts(packet, recomputed).value| ==>
      FactTolerated(Facts(packet, recomputed).value[i], failing, passing, tol)
  }

  function FinalScore(side: Side): Num {
    if !side.gatePassed then Fin(0.0)
    else if "final_score" in side.metrics then side.metrics["final_score"] else Fin(0.0)
  }

  predicate Honest(packet: Side, recomputed: Side, tolerance: real) {
    Within(packet.score, FinalScore(packet), tolerance) && Within(recomputed.score, FinalScore(recomputed), tolerance)
  }

  // -- the comparison --------------------------------------------------------------------------

  predicate MetricAccepted(packet: Side, recomputed: Side, tol: Tolerances, m: string)
    requires m in packet.metrics && m in recomputed.metrics
  {
    || Within(packet.metrics[m], recomputed.metrics[m], Allowed(tol, m))
    || (Excused(packet, recomputed, tol) && m in Exempt(packet, recomputed))
  }

  /** The metric-set, metric, score and gate checks all pass. */
  predicate Accepted(packet: Side, recomputed: Side, tol: Tolerances) {
    && packet.metrics.Keys == recomputed.metrics.Keys
    && (forall m :: m in packet.metrics ==> MetricAccepted(packet, recomputed, tol, m))
    && (|| Within(packet.score, recomputed.score, Allowed(tol, "score"))
        || (Excused(packet, recomputed, tol) && Honest(packet, recomputed, Allowed(tol, "score"))))
    && (packet.gatePassed == recomputed.gatePassed || Excused(packet, recomputed, tol))
  }

  datatype Check = Check(name: string, ok: bool)

  /** The comparison block of `verify_bundle`: every check is reported, none is cut short. */
  method Compare(packet: Side, recomputed: Side, tol: Tolerances) returns (checks: seq<Check>)
    ensures (forall i :: 0 <= i < |checks| ==> checks[i].ok) <==> Accepted(packet, recomputed, tol)
    ensures |checks| == |packet.metrics.Keys * recomputed.metrics.Keys| + 3
  {
    var excused := Excused(packet, recomputed, tol);
    checks := AllOkAppend([], Check("metric_set", packet.metrics.Keys == recomputed.metrics.Keys));
    var todo := packet.metrics.Keys * recomputed.metrics.Keys;
    while todo != {}
      invariant todo <= packet.metrics.Keys * recomputed.metrics.Keys
      invariant |checks| == |packet.metrics.Keys * recomputed.metrics.Keys| - |todo| + 1
      invariant (forall i :: 0 <= i < |checks| ==> checks[i].ok) <==>
                  packet.metrics.Keys == recomputed.metrics.Keys
                  && forall m :: m in packet.metrics && m in recomputed.metrics && m !in todo ==>
                       MetricAccepted(packet, recomputed, tol, m)
      decreases |todo|
    {
      var m :| m in todo;
      var ok := Within(packet.metrics[m], recomputed.metrics[m], Allowed(tol, m)) ||
        (excused && m in Exempt(packet, recomputed));
      assert ok <==> MetricAccepted(packet, recomputed, tol, m);
      checks := AllOkAppend(checks, Check("score_recompute:" + m, ok));
      todo := todo - {m};
    }
    var allowed := Allowed(tol, "score");
    checks := AllOkAppend(checks, Check("score_recompute:score", Within(packet.score, recomputed.score, allowed)
                                                                  || (excused && Honest(packet, recomputed, allowed))));
    checks := AllOkAppend(checks, Check("gate_recompute", packet.gatePassed == recomputed.gatePassed || excused));
  }

  method AllOkAppend(checks: seq<Check>, c: Check) returns (r: seq<Check>)
    ensures r == checks + [c]
    ensures (forall i :: 0 <= i < |r| ==> r[i].ok) <==> (forall i :: 0 <= i < |checks| ==> checks[i].ok) && c.ok
  {
    r := checks + [c];
    assert r[|checks|] == c;
    forall i | 0 <= i < |checks| ensures r[i] == checks[i] {}
  }

  // -- what acceptance means -----------------------------------------------------------------------

  /** The two metric values lie on different sides of the fact's limit, within the tolerance of the
      metric of each other and of the committed measurement. */
  predicate Straddled(fact: Fact, packet: Side, recomputed: Side, tol: Tolerances) {
    var mapped := BoundaryMetric(fact.code);
    && mapped.Some?
    && var m := mapped.value.0;
    && m in packet.metrics && m in recomputed.metrics && fact.limit.Number? && fact.limit.n.Fin? &&
      fact.measured.Number?
    && Within(packet.metrics[m], recomputed.metrics[m], Allowed(tol, m))
    && Within(fact.measured.n, fact.limit.n, Allowed(tol, m))
    && var a, b, limit := packet.metrics[m].r, recomputed.metrics[m].r, fact.limit.n.r;
    && a != b && (if a < b then a <= limit <= b else b <= limit <= a)
    // and the failing value is the recorded one exactly when the recorded side fails
    && (a < b <==> (fact.code in BELOW <==> RecordedSideFails(packet, recomputed)))
  }

  /** The gates whose value must not be below the limit, and those whose value must not be above it. */
  const BELOW: map<string, string> := map[
    "VMAF_BELOW_FLOOR" := "vmaf", "VMAF_BELOW_THRESHOLD" := "vmaf", "COLOR_GRAYSCALE" := "color_grayscale_measure",
    "REGION_BASELINE_NOT_BEATEN" := "region_psnr_margin_db"]

  const ABOVE: map<string, string> := map[
    "VMAF_MODEL_DELTA_EXCEEDED" := "vmaf_model_delta", "COMPRESSION_RATE_TOO_HIGH" := "compression_rate",
    "TONE_MANIPULATION" := "tone_manipulation_measure", "CHROMA_UV_MANIPULATION" := "chroma_uv_measure",
    "WARP_ERROR_EXCEEDED" := "region_warp_error"]

  lemma BoundaryTable(code: string)
    ensures BoundaryMetric(code) == if code in BELOW then Some((BELOW[code], BelowFails))
                                    else if code in ABOVE then Some((ABOVE[code], AboveFails)) else None
  {}

  /** A value that reads as a real number, a boolean included. */
  predicate IsNumber(v: Value) { v.Number? || v.Flag? }

  /** The formula scored zero for a reason with a numeric decision surface. */
  predicate Zeroed(b: Breakdown) {
    match b
    case Absent => false
    case Removal(reason, psnr, floor, _, _, _) =>
      || (reason == "REGION_BASELINE_NOT_BEATEN" && IsNumber(psnr) && IsNumber(floor))
      || reason == "WARP_ERROR_EXCEEDED"
    case Compression(reason, _, _) => reason == "VMAF_BELOW_THRESHOLD"
  }

  /** The side that fails is told by the gates; where both pass, by the zeroed formula. Where both fail
      the code always takes the recorded one. */
  predicate RecordedSideFails(packet: Side, recomputed: Side) {
    if packet.gatePassed != recomputed.gatePassed then !packet.gatePassed
    else !packet.gatePassed || Zeroed(packet.breakdown)
  }

  /** Only the formula flipped. */
  predicate OnlyFormulaFlips(packet: Side, recomputed: Side) {
    packet.gatePassed == recomputed.gatePassed && Zeroed(packet.breakdown) != Zeroed(recomputed.breakdown)
  }

  lemma FlipsAreFlips(packet: Side, recomputed: Side)
    ensures FormulaFlip(packet, recomputed) <==> OnlyFormulaFlips(packet, recomputed)
    ensures packet.gatePassed != recomputed.gatePassed || OnlyFormulaFlips(packet, recomputed) ==>
              (RecordedFails(packet, recomputed) <==> RecordedSideFails(packet, recomputed))
  {
    ZeroedHasFact(packet.breakdown);
    ZeroedHasFact(recomputed.breakdown);
  }

  lemma ZeroedHasFact(b: Breakdown)
    ensures Zeroed(b) <==> FormulaBoundary(b).Some?
  {}

  lemma ToleratedIsStraddled(fact: Fact, packet: Side, recomputed: Side, tol: Tolerances)
    requires var failing := if RecordedFails(packet, recomputed) then packet.metrics else recomputed.metrics;
             var passing := if RecordedFails(packet, recomputed) then recomputed.metrics else packet.metrics;
             FactTolerated(fact, failing, passing, tol)
    requires packet.gatePassed != recomputed.gatePassed || FormulaFlip(packet, recomputed)
    ensures Straddled(fact, packet, recomputed, tol)
  {
    BoundaryTable(fact.code);
    FlipsAreFlips(packet, recomputed);
  }

  /** Soundness of an accepted comparison. Either gate and score agree within tolerance, or there are
      facts and every one of them has a limit that the two values of its metric straddle within its
      tolerance. Every metric agrees within its tolerance, except that a flipped formula may change
      the final score; and a score beyond its tolerance follows from each side's own gate. */
  lemma AcceptedIsSound(packet: Side, recomputed: Side, tol: Tolerances)
    requires Accepted(packet, recomputed, tol)
    ensures packet.metrics.Keys == recomputed.metrics.Keys
    ensures forall m :: m in packet.metrics && (m != "final_score" || !FormulaFlip(packet, recomputed)) ==>
              Within(packet.metrics[m], recomputed.metrics[m], Allowed(tol, m))
    ensures || (packet.gatePassed == recomputed.gatePassed &&
                Within(packet.score, recomputed.score, Allowed(tol, "score")))
            || (&& Facts(packet, recomputed).Some? && Facts(packet, recomputed).value != []
                && forall i :: 0 <= i < |Facts(packet, recomputed).value| ==>
                     Straddled(Facts(packet, recomputed).value[i], packet, recomputed, tol))
    ensures !Within(packet.score, recomputed.score, Allowed(tol, "score")) ==>
              Honest(packet, recomputed, Allowed(tol, "score"))
  {
    forall m | m in packet.metrics && (m != "final_score" || !FormulaFlip(packet, recomputed))
      ensures Within(packet.metrics[m], recomputed.metrics[m], Allowed(tol, m))
    {
      assert MetricAccepted(packet, recomputed, tol, m);
    }
    if Excused(packet, recomputed, tol) {
      var facts := Facts(packet, recomputed).value;
      forall i | 0 <= i < |facts| ensures Straddled(facts[i], packet, recomputed, tol) {
        ToleratedIsStraddled(facts[i], packet, recomputed, tol);
      }
    }
  }

  /** A metric with tolerance zero never excuses anything. */
  lemma ExactMetricsNeverExcuse(fact: Fact, packet: Side, recomputed: Side, tol: Tolerances)
    requires Straddled(fact, packet, recomputed, tol)
    ensures Allowed(tol, BoundaryMetric(fact.code).value.0) > 0.0
  {}

  /** The compression rate has no shipped tolerance, so although its gate is listed as a boundary, a
      comparison under the shipped policy never excuses it. */
  lemma CompressionRateNeverExcused(packet: Side, recomputed: Side, tol: Tolerances, i: nat)
    requires Accepted(packet, recomputed, tol) && NoWider(tol, DEFAULT_TOLERANCES)
    requires packet.gatePassed != recomputed.gatePassed
    ensures Facts(packet, recomputed).Some?
    ensures i < |Facts(packet, recomputed).value| ==>
            Facts(packet, recomputed).value[i].code != "COMPRESSION_RATE_TOO_HIGH"
  {
    AcceptedIsSound(packet, recomputed, tol);
    CompressionRateIsExact();
    assert Allowed(tol, "compression_rate") <= 0.0;
    if i < |Facts(packet, recomputed).value| {
      ExactMetricsNeverExcuse(Facts(packet, recomputed).value[i], packet, recomputed, tol);
    }
  }

  lemma CompressionRateIsExact()
    ensures Allowed(DEFAULT_TOLERANCES, "compression_rate") == 0.0
    ensures BoundaryMetric("COMPRESSION_RATE_TOO_HIGH") == Some(("compression_rate", AboveFails))
  {}

  // -- exactly what is accepted, in terms of the numbers ---------------------------------------------

  predicate Near(x: real, y: real, allowed: real) { -allowed <= x - y <= allowed }

  /** The metrics of the fact's gate lie around its limit, the failing one strictly on the failing side,
      and measurement, limit and both metrics are within tolerance. */
  predicate Crosses(code: string, measured: real, limit: real, failing: Metrics, passing: Metrics, tol: Tolerances) {
    && (code in BELOW || code in ABOVE)
    && var m := if code in BELOW then BELOW[code] else ABOVE[code];
    && m in failing && m in passing && failing[m].Fin? && passing[m].Fin?
    && var f, p, a := failing[m].r, passing[m].r, Allowed(tol, m);
    && Near(f, measured, a) && Near(f, p, a) && Near(measured, limit, a)
    && if code in BELOW then f < limit <= p else p <= limit < f
  }

  predicate FactCrosses(fact: Fact, failing: Metrics, passing: Metrics, tol: Tolerances) {
    && fact.measured.Number? && fact.measured.n.Fin? && fact.limit.Number? && fact.limit.n.Fin?
    && Crosses(fact.code, fact.measured.n.r, fact.limit.n.r, failing, passing, tol)
  }

  /** The number a value reads as: booleans count as one and zero. */
  predicate ReadsAs(v: Value, x: real) {
    match v
    case Number(n) => n == Fin(x)
    case Flag(b) => x == if b then 1.0 else 0.0
    case Other => false
  }

  /** The fact behind a zeroed formula crosses its boundary. */
  ghost predicate FormulaCrosses(b: Breakdown, failing: Metrics, passing: Metrics, tol: Tolerances) {
    match b
    case Absent => false
    case Removal(reason, psnr, floor, margin, warp, cap) =>
      || (&& reason == "REGION_BASELINE_NOT_BEATEN"
          && exists x, y :: ReadsAs(psnr, x) && ReadsAs(floor, y)
                            && FactCrosses(Fact(reason, Number(Fin(x - y)), margin), failing, passing, tol))
      || (reason == "WARP_ERROR_EXCEEDED" && FactCrosses(Fact(reason, warp, cap), failing, passing, tol))
    case Compression(reason, vmaf, threshold) =>
      reason == "VMAF_BELOW_THRESHOLD" && FactCrosses(Fact(reason, vmaf, threshold), failing, passing, tol)
  }

  ghost predicate AllCross(violations: seq<Violation>, failing: Metrics, passing: Metrics, tol: Tolerances) {
    && violations != []
    && forall i :: 0 <= i < |violations| ==>
         violations[i].Readable? && FactCrosses(violations[i].fact, failing, passing, tol)
  }

  /** Every violation of the failing side is readable and crosses its boundary, and there is one; or,
      with equal gates, exactly one formula was zeroed and its fact does. */
  ghost predicate Excusable(packet: Side, recomputed: Side, tol: Tolerances) {
    var failing := if RecordedSideFails(packet, recomputed) then packet.metrics else recomputed.metrics;
    var passing := if RecordedSideFails(packet, recomputed) then recomputed.metrics else packet.metrics;
    if packet.gatePassed != recomputed.gatePassed then
      var violations := if packet.gatePassed then recomputed.violations else packet.violations;
      AllCross(violations, failing, passing, tol)
    else
      && OnlyFormulaFlips(packet, recomputed)
      && FormulaCrosses(if Zeroed(packet.breakdown) then packet.breakdown else recomputed.breakdown,
                        failing, passing, tol)
  }

  /** The score is what the side's own gate and formula make it. */
  predicate ScoreFollows(side: Side, allowed: real) {
    && side.score.Fin?
    && if side.gatePassed && "final_score" in side.metrics
       then side.metrics["final_score"].Fin? && Near(side.score.r, side.metrics["final_score"].r, allowed)
       else Near(side.score.r, 0.0, allowed)
  }

  predicate Agree(a: Num, b: Num, allowed: real) { a.Fin? && b.Fin? && Near(a.r, b.r, allowed) }

  lemma FactCrossesIsTolerated(fact: Fact, failing: Metrics, passing: Metrics, tol: Tolerances)
    ensures FactTolerated(fact, failing, passing, tol) <==> FactCrosses(fact, failing, passing, tol)
  {
    BoundaryTable(fact.code);
  }

  lemma FormulaCrossesIsTolerated(b: Breakdown, failing: Metrics, passing: Metrics, tol: Tolerances)
    ensures FormulaCrosses(b, failing, passing, tol) <==>
              FormulaBoundary(b).Some? && FactTolerated(FormulaBoundary(b).value, failing, passing, tol)
  {
    if FormulaBoundary(b).Some? { FactCrossesIsTolerated(FormulaBoundary(b).value, failing, passing, tol); }
    if b.Removal? && b.zeroReason == "REGION_BASELINE_NOT_BEATEN" && FormulaBoundary(b).Some? {
      var x, y := AsReal(b.psnr).value, AsReal(b.floor).value;
      if x.Fin? && y.Fin? { assert ReadsAs(b.psnr, x.r) && ReadsAs(b.floor, y.r); }
    }
  }

  lemma ViolationsCross(violations: seq<Violation>, failing: Metrics, passing: Metrics, tol: Tolerances)
    ensures ReadFacts(violations).Some?
            && (forall i :: 0 <= i < |ReadFacts(violations).value| ==>
                  FactTolerated(ReadFacts(violations).value[i], failing, passing, tol))
            <==> AllCross(violations, failing, passing, tol)
  {
    forall i | 0 <= i < |violations| && violations[i].Readable?
      ensures FactTolerated(violations[i].fact, failing, passing, tol) <==>
                FactCrosses(violations[i].fact, failing, passing, tol)
    {
      FactCrossesIsTolerated(violations[i].fact, failing, passing, tol);
    }
    if ReadFacts(violations).Some? {
      assert forall i :: 0 <= i < |violations| ==> ReadFacts(violations).value[i] == violations[i].fact;
    }
  }

  lemma FormulasCross(packet: Side, recomputed: Side, tol: Tolerances)
    requires OnlyFormulaFlips(packet, recomputed)
    ensures var failing := if RecordedSideFails(packet, recomputed) then packet.metrics else recomputed.metrics;
            var passing := if RecordedSideFails(packet, recomputed) then recomputed.metrics else packet.metrics;
            && Facts(packet, recomputed).Some? && |Facts(packet, recomputed).value| == 1
            && (FactTolerated(Facts(packet, recomputed).value[0], failing, passing, tol) <==>
                  Excusable(packet, recomputed, tol))
  {
    var failing := if RecordedSideFails(packet, recomputed) then packet.metrics else recomputed.metrics;
    var passing := if RecordedSideFails(packet, recomputed) then recomputed.metrics else packet.metrics;
    FlipsAreFlips(packet, recomputed);
    ZeroedHasFact(packet.breakdown);
    ZeroedHasFact(recomputed.breakdown);
    FormulaCrossesIsTolerated(if Zeroed(packet.breakdown) then packet.breakdown else recomputed.breakdown,
                              failing, passing, tol);
  }

  /** All metrics agree, but possibly the final score where only the formula flips. */
  ghost predicate MetricsAgree(packet: Side, recomputed: Side, tol: Tolerances) {
    && packet.metrics.Keys == recomputed.metrics.Keys
    && forall m :: m in packet.metrics && (m != "final_score" || !OnlyFormulaFlips(packet, recomputed)) ==>
         Agree(packet.metrics[m], recomputed.metrics[m], Allowed(tol, m))
  }

  lemma AgreeingIsClose(packet: Side, recomputed: Side, tol: Tolerances)
    requires MetricsAgree(packet, recomputed, tol)
    ensures MetricsClose(packet, recomputed, tol)
  {
    FlipsAreFlips(packet, recomputed);
  }

  lemma ExcusedExactlyWhen(packet: Side, recomputed: Side, tol: Tolerances)
    requires MetricsAgree(packet, recomputed, tol)
    ensures Excused(packet, recomputed, tol) <==> Excusable(packet, recomputed, tol)
  {
    FlipsAreFlips(packet, recomputed);
    AgreeingIsClose(packet, recomputed, tol);
    if packet.gatePassed != recomputed.gatePassed {
      var failing := if RecordedSideFails(packet, recomputed) then packet.metrics else recomputed.metrics;
      var passing := if RecordedSideFails(packet, recomputed) then recomputed.metrics else packet.metrics;
      var violations := if packet.gatePassed then recomputed.violations else packet.violations;
      ViolationsCross(violations, failing, passing, tol);
      assert Facts(packet, recomputed) == ReadFacts(violations);
      assert Excused(packet, recomputed, tol) <==>
               ReadFacts(violations).Some? && forall i :: 0 <= i < |ReadFacts(violations).value| ==>
                 FactTolerated(ReadFacts(violations).value[i], failing, passing, tol);
      assert Excusable(packet, recomputed, tol) <==> AllCross(violations, failing, passing, tol);
    } else if OnlyFormulaFlips(packet, recomputed) {
      FormulasCross(packet, recomputed, tol);
    }
  }

  /** The checks, given whether the comparison is excused. */
  ghost predicate AcceptedIf(packet: Side, recomputed: Side, tol: Tolerances, excused: bool) {
    && MetricsAgree(packet, recomputed, tol)
    && ("final_score" in packet.metrics ==>
          || excused
          || Agree(packet.metrics["final_score"], recomputed.metrics["final_score"], Allowed(tol, "final_score")))
    && (packet.gatePassed == recomputed.gatePassed || excused)
    && (|| Agree(packet.score, recomputed.score, Allowed(tol, "score"))
        || (excused && ScoreFollows(packet, Allowed(tol, "score")) && ScoreFollows(recomputed, Allowed(tol, "score"))))
  }

  lemma AcceptedIfExcused(packet: Side, recomputed: Side, tol: Tolerances)
    ensures Accepted(packet, recomputed, tol) <==> AcceptedIf(packet, recomputed, tol, Excused(packet, recomputed, tol))
  {
    FlipsAreFlips(packet, recomputed);
    if packet.metrics.Keys == recomputed.metrics.Keys {
      MetricsAcceptedExactly(packet, recomputed, tol);
    }
  }

  lemma MetricsAcceptedExactly(packet: Side, recomputed: Side, tol: Tolerances)
    requires packet.metrics.Keys == recomputed.metrics.Keys
    ensures (forall m :: m in packet.metrics ==> MetricAccepted(packet, recomputed, tol, m)) <==>
              && MetricsAgree(packet, recomputed, tol)
              && ("final_score" in packet.metrics ==>
                    || Excused(packet, recomputed, tol)
                    || Agree(packet.metrics["final_score"], recomputed.metrics["final_score"],
                             Allowed(tol, "final_score")))
  {
    FlipsAreFlips(packet, recomputed);
    forall m | m in packet.metrics
      ensures MetricAccepted(packet, recomputed, tol, m) <==>
                || Agree(packet.metrics[m], recomputed.metrics[m], Allowed(tol, m))
                || (Excused(packet, recomputed, tol) && m == "final_score" && OnlyFormulaFlips(packet, recomputed))
    {}
  }

  /** The converse of soundness: a comparison is accepted exactly when the metric sets agree, every metric
      is within its tolerance (but the final score where only the formula flips, excusably), the gates agree
      or the flip is excusable, and the scores agree or the flip is excusable and each follows its own side. */
  lemma AcceptedExactlyWhen(packet: Side, recomputed: Side, tol: Tolerances)
    ensures Accepted(packet, recomputed, tol) <==>
              AcceptedIf(packet, recomputed, tol, Excusable(packet, recomputed, tol))
  {
    AcceptedIfExcused(packet, recomputed, tol);
    if MetricsAgree(packet, recomputed, tol) { ExcusedExactlyWhen(packet, recomputed, tol); }
  }

  /** For instance a VMAF that is a hair below its floor on one side and above it on the other. */
  lemma FloorCrossingIsAccepted(packet: Side, recomputed: Side, tol: Tolerances)
    requires Allowed(tol, "vmaf") == 0.05 && Allowed(tol, "score") == Allowed(tol, "final_score") == 0.00001
    requires packet.metrics == map["vmaf" := Fin(84.98), "final_score" := Fin(0.8)] && packet.score == Fin(0.0)
    requires !packet.gatePassed && packet.breakdown == Absent
    requires packet.violations == [Readable(Fact("VMAF_BELOW_FLOOR", Number(Fin(84.98)), Number(Fin(85.0))))]
    requires recomputed.metrics == map["vmaf" := Fin(85.01), "final_score" := Fin(0.8)]
    requires recomputed.score == Fin(0.8) && recomputed.gatePassed && recomputed.breakdown == Absent
    ensures Accepted(packet, recomputed, tol)
  {
    FloorCrosses(tol);
    assert Excusable(packet, recomputed, tol) by {
      assert forall i :: 0 <= i < |packet.violations| ==> packet.violations[i] == packet.violations[0];
    }
    AcceptedExactlyWhen(packet, recomputed, tol);
  }

  lemma ShippedTolerances()
    ensures Allowed(DEFAULT_TOLERANCES, "vmaf") == 0.05
    ensures Allowed(DEFAULT_TOLERANCES, "score") == Allowed(DEFAULT_TOLERANCES, "final_score") == 0.00001
  {}

  lemma FloorCrosses(tol: Tolerances)
    requires Allowed(tol, "vmaf") == 0.05
    ensures FactCrosses(Fact("VMAF_BELOW_FLOOR", Number(Fin(84.98)), Number(Fin(85.0))),
                        map["vmaf" := Fin(84.98), "final_score" := Fin(0.8)],
                        map["vmaf" := Fin(85.01), "final_score" := Fin(0.8)], tol)
  {
    assert "VMAF_BELOW_FLOOR" in BELOW && BELOW["VMAF_BELOW_FLOOR"] == "vmaf";
  }

  // -- narrowing never accepts more ------------------------------------------------------------------

  lemma FactMonotone(fact: Fact, failing: Metrics, passing: Metrics, narrow: Tolerances, wide: Tolerances)
    requires FactTolerated(fact, failing, passing, narrow) && NoWider(narrow, wide)
    ensures FactTolerated(fact, failing, passing, wide)
  {
    var m := BoundaryMetric(fact.code).value.0;
    assert Allowed(narrow, m) <= Allowed(wide, m);
  }

  lemma ExcusedMonotone(packet: Side, recomputed: Side, narrow: Tolerances, wide: Tolerances)
    requires Excused(packet, recomputed, narrow) && NoWider(narrow, wide)
    ensures Excused(packet, recomputed, wide)
  {
    var failing := if RecordedFails(packet, recomputed) then packet.metrics else recomputed.metrics;
    var passing := if RecordedFails(packet, recomputed) then recomputed.metrics else packet.metrics;
    var facts := Facts(packet, recomputed).value;
    forall i | 0 <= i < |facts| ensures FactTolerated(facts[i], failing, passing, wide) {
      FactMonotone(facts[i], failing, passing, narrow, wide);
    }
    forall m | m in packet.metrics && m !in Exempt(packet, recomputed)
      ensures Allowed(wide, m) >= 0.0 && !Exceeds(packet.metrics[m], recomputed.metrics[m], Allowed(wide, m))
    {
      assert Allowed(narrow, m) <= Allowed(wide, m);
    }
  }

  /** Whatever is accepted under a narrower policy is accepted under the wider one; with
      `ResolveTolerances`, whatever is accepted under an override is accepted under the release. */
  lemma AcceptanceMonotone(packet: Side, recomputed: Side, narrow: Tolerances, wide: Tolerances)
    requires Accepted(packet, recomputed, narrow) && NoWider(narrow, wide)
    ensures Accepted(packet, recomputed, wide)
  {
    if Excused(packet, recomputed, narrow) { ExcusedMonotone(packet, recomputed, narrow, wide); }
    assert Allowed(narrow, "score") <= Allowed(wide, "score");
    forall m | m in packet.metrics ensures MetricAccepted(packet, recomputed, wide, m) {
      assert MetricAccepted(packet, recomputed, narrow, m);
      assert Allowed(narrow, m) <= Allowed(wide, m);
    }
  }

  // -- which overrides narrow ------------------------------------------------------------------------

  /** Every override has a name and is a finite number between zero and the shipped tolerance of its
      metric, between zero and zero where nothing is shipped. */
  lemma NarrowsExactlyWhen(shipped: Tolerances, overrides: map<string, Value>)
    ensures AllNarrow(shipped, overrides) <==>
              forall m :: m in overrides ==>
                && m != "" && overrides[m].Number? && overrides[m].n.Fin? && 0.0 <= overrides[m].n.r
                && (m in shipped ==> overrides[m].n.r <= shipped[m]) && (m !in shipped ==> overrides[m].n.r == 0.0)
  {
    if AllNarrow(shipped, overrides) {
      forall m | m in overrides
        ensures m != "" && overrides[m].Number? && overrides[m].n.Fin? && 0.0 <= overrides[m].n.r
        ensures (m in shipped ==> overrides[m].n.r <= shipped[m]) && (m !in shipped ==> overrides[m].n.r == 0.0)
      {
        assert Narrows(shipped, m, overrides[m]);
      }
    }
  }
}
