/** The phase-plan record built from green timings and congestion estimates. */
module SignalPlans {
  import opened Common
  import opened Text
  import opened OrderedMaps

  /** One signal phase; every duration is in whole seconds. */
  datatype Phase = Phase(phaseId: string, green: int, yellow: int, red: int, priority: int)

  /** A congestion-estimate entry: a plain level, or a nested table such as the `predicted` one. */
  datatype Estimate = Level(level: real) | Nested(levels: OrderedMap<string, real>)

  type Estimates = OrderedMap<string, Estimate>

  /** The plan record that the controller would serialise. */
  datatype Plan = Plan(
    intersectionId: string,
    timestamp: string,
    source: string,
    phases: seq<Phase>,
    estimates: Estimates,
    fairnessScore: real,
    confidence: real)

  /** What plan generation or state derivation can raise. */
  datatype Fault =
    | MissingPhase              // a plan lacks its N_S or E_W phase
    | ZeroCycle                 // the cycle length is zero, so `%` divides by zero
    | NotComparable(key: string) // the estimate under `key` is a table, which cannot be compared with 0.7

  const YellowSeconds: int := 5
  const CongestedLevel: real := 0.7
  const RecommendationSource: string := "AI_AGENT_1"

  /** Red time is what is left of a 90-second budget, but never under 10 seconds. */
  function RedDuration(green: int): (red: int)
    ensures red >= 10
    ensures green + red >= 90
    ensures red == 10 || green + red == 90
    ensures green <= 80 ==> green + red == 90
  {
    if 90 - green >= 10 then 90 - green else 10
  }

  /** The estimate key a phase reads its priority from: its id up to the first `_`. */
  function AxisKey(phaseId: string): string {
    SplitHead(phaseId, '_')
  }

  /** Python's `estimates.get(key, 0)`: a missing key reads as the level 0. */
  function EstimateAt(estimates: Estimates, key: string): (e: Estimate)
    ensures !HasKey(estimates, key) ==> e == Level(0.0)
  {
    Get(estimates, key, Level(0.0))
  }

  /**
   * 1 when the estimate under the phase's key exceeds 0.7, otherwise 2; a nested
   * table under the key cannot be compared with 0.7.
   */
  function PhasePriority(estimates: Estimates, phaseId: string): (r: Result<int, Fault>)
    ensures r.Err? <==> EstimateAt(estimates, AxisKey(phaseId)).Nested?
    ensures r.Err? ==> r.error == NotComparable(AxisKey(phaseId))
    ensures r == Ok(1) <==> EstimateAt(estimates, AxisKey(phaseId)).Level? && EstimateAt(estimates, AxisKey(phaseId)).level > CongestedLevel
    ensures r == Ok(2) <==> EstimateAt(estimates, AxisKey(phaseId)).Level? && EstimateAt(estimates, AxisKey(phaseId)).level <= CongestedLevel
  {
    var key := AxisKey(phaseId);
    match EstimateAt(estimates, key)
    case Level(v) => Ok(if v > CongestedLevel then 1 else 2)
    case Nested(_) => Err(NotComparable(key))
  }

  /** A phase whose key has no estimate at all gets the ordinary priority 2. */
  lemma MissingEstimateIsOrdinary(estimates: Estimates, phaseId: string)
    requires !HasKey(estimates, AxisKey(phaseId))
    ensures PhasePriority(estimates, phaseId) == Ok(2)
  {
  }

  /** The phase for one (phase id, green seconds) timing entry. */
  function MakePhase(estimates: Estimates, phaseId: string, green: int): (r: Result<Phase, Fault>)
    ensures r.Ok? <==> PhasePriority(estimates, phaseId).Ok?
    ensures r.Ok? ==> r.value.phaseId == phaseId && r.value.green == green
    ensures r.Ok? ==> r.value.yellow == YellowSeconds && r.value.red == RedDuration(green)
    ensures r.Ok? ==> r.value.priority == PhasePriority(estimates, phaseId).value
  {
    match PhasePriority(estimates, phaseId)
    case Ok(priority) => Ok(Phase(phaseId, green, YellowSeconds, RedDuration(green), priority))
    case Err(e) => Err(e)
  }

  /** The plan's phase list: one phase per timing entry, in the timings' order. */
  function PhasesFor(estimates: Estimates, timings: OrderedMap<string, int>): (r: Result<seq<Phase>, Fault>)
    ensures r.Ok? <==> forall i | 0 <= i < |timings| :: PhasePriority(estimates, timings[i].0).Ok?
    ensures r.Ok? ==> |r.value| == |timings|
    ensures r.Ok? ==> forall i | 0 <= i < |timings| :: MakePhase(estimates, timings[i].0, timings[i].1) == Ok(r.value[i])
    ensures r.Err? ==> exists i | 0 <= i < |timings| ::
      && PhasePriority(estimates, timings[i].0).Err?
      && (forall j | 0 <= j < i :: PhasePriority(estimates, timings[j].0).Ok?)
      && r.error == NotComparable(AxisKey(timings[i].0))
  {
    if |timings| == 0 then Ok([])
    else
      var rest := PhasesFor(estimates, timings[1..]);
      assert forall i | 1 <= i < |timings| :: timings[1..][i - 1] == timings[i];
      match MakePhase(estimates, timings[0].0, timings[0].1)
      case Err(e) => Err(e)
      case Ok(first) =>
        match rest
        case Err(e) => Err(e)
        case Ok(phases) => Ok([first] + phases)
  }

  /** `generate_signal_plan_output`, as a record rather than JSON text. */
  function GeneratePlan(
    intersectionId: string,
    timestamp: string,
    estimates: Estimates,
    timings: OrderedMap<string, int>,
    confidence: real := 0.9,
    fairnessScore: real := 1.0): (r: Result<Plan, Fault>)
    ensures r.Ok? <==> PhasesFor(estimates, timings).Ok?
    ensures r.Ok? ==> r.value.phases == PhasesFor(estimates, timings).value
    ensures r.Ok? ==> r.value.source == RecommendationSource && r.value.intersectionId == intersectionId
    ensures r.Ok? ==> r.value.estimates == estimates && r.value.confidence == confidence
    ensures r.Ok? ==> r.value.fairnessScore == fairnessScore && r.value.timestamp == timestamp
  {
    match PhasesFor(estimates, timings)
    case Ok(phases) => Ok(Plan(intersectionId, timestamp, RecommendationSource, phases, estimates, fairnessScore, confidence))
    case Err(e) => Err(e)
  }

  /** Every generated phase has the fixed yellow time, a red time of at least 10 s, and priority 1 or 2. */
  lemma {:induction false} PlanPhaseShape(estimates: Estimates, timings: OrderedMap<string, int>, i: int)
    requires PhasesFor(estimates, timings).Ok?
    requires 0 <= i < |timings|
    ensures var p := PhasesFor(estimates, timings).value[i];
      && p.phaseId == timings[i].0
      && p.green == timings[i].1
      && p.yellow == 5
      && p.red >= 10 && p.green + p.red >= 90
      && EstimateAt(estimates, AxisKey(p.phaseId)).Level?
      && (p.priority == 1 <==> EstimateAt(estimates, AxisKey(p.phaseId)).level > 0.7)
      && (p.priority == 1 || p.priority == 2)
  {
  }
}
