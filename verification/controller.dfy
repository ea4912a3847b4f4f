/**
 * One controller step for one intersection (`adjust_signals`): estimate,
 * predict, choose green times, build the plan, and derive the signal state.
 */
module Controller {
  import opened Common
  import opened OrderedMaps
  import opened PyInt
  import opened Congestion
  import opened SignalPlans
  import opened SignalStates

  /** N-S green seconds: `int(30 + 30 * w)`, truncated toward zero. */
  function NsGreen(weighted: real): (green: int)
    ensures weighted >= -1.0 ==> green as real <= 30.0 + 30.0 * weighted < green as real + 1.0
    ensures weighted < -1.0 ==> green as real - 1.0 < 30.0 + 30.0 * weighted <= green as real
  {
    Trunc(30.0 + 30.0 * weighted)
  }

  /** E-W green seconds: `int(30 + 30 * (1 - w))`, truncated toward zero. */
  function EwGreen(weighted: real): (green: int)
    ensures weighted <= 2.0 ==> green as real <= 30.0 + 30.0 * (1.0 - weighted) < green as real + 1.0
    ensures weighted > 2.0 ==> green as real - 1.0 < 30.0 + 30.0 * (1.0 - weighted) <= green as real
  {
    Trunc(30.0 + 30.0 * (1.0 - weighted))
  }

  /** The timing table handed to plan generation, N-S entry first. */
  function SignalTimings(weighted: real): OrderedMap<string, int> {
    [("N_S_GREEN", NsGreen(weighted)), ("E_W_GREEN", EwGreen(weighted))]
  }

  /** For a weighted congestion in [0, 1] both greens lie in [30, 60] and together fill 89 or 90 seconds. */
  lemma GreensInRange(weighted: real)
    requires 0.0 <= weighted <= 1.0
    ensures 30 <= NsGreen(weighted) <= 60
    ensures 30 <= EwGreen(weighted) <= 60
    ensures 89 <= NsGreen(weighted) + EwGreen(weighted) <= 90
  {
  }

  /** More congestion never shortens N-S green nor lengthens E-W green. */
  lemma GreensMonotone(lighter: real, heavier: real)
    requires lighter <= heavier
    ensures NsGreen(lighter) <= NsGreen(heavier)
    ensures EwGreen(heavier) <= EwGreen(lighter)
  {
  }

  /** The estimates table: N and S carry the weighted value, E and W a fixed 0.2, plus the nested predictions. */
  function CongestionEstimates(weighted: real, predicted: real): (r: Estimates)
    ensures DistinctKeys(r)
    ensures |r| == 5 && forall i | 0 <= i < |r| :: r[i].0 in {"N", "S", "E", "W", "predicted"}
    ensures EstimateAt(r, "N") == Level(weighted) && EstimateAt(r, "S") == Level(weighted)
    ensures EstimateAt(r, "E") == Level(0.2) && EstimateAt(r, "W") == Level(0.2)
    ensures EstimateAt(r, "predicted") == Nested([("N_S", predicted), ("E_W", 0.2)])
  {
    var r := [ ("N", Level(weighted)), ("S", Level(weighted)), ("E", Level(0.2)), ("W", Level(0.2)),
               ("predicted", Nested([("N_S", predicted), ("E_W", 0.2)])) ];
    assert DistinctKeys(r);
    GetAt(r, 0, Level(0.0));
    GetAt(r, 1, Level(0.0));
    GetAt(r, 2, Level(0.0));
    GetAt(r, 3, Level(0.0));
    GetAt(r, 4, Level(0.0));
    r
  }

  /** The two standard phase ids read their priority from the "N" and "E" estimates. */
  lemma EstimatesUnderPhaseKeys(weighted: real, predicted: real)
    ensures AxisKey("N_S_GREEN") == "N" && AxisKey("E_W_GREEN") == "E"
    ensures EstimateAt(CongestionEstimates(weighted, predicted), AxisKey("N_S_GREEN")) == Level(weighted)
    ensures EstimateAt(CongestionEstimates(weighted, predicted), AxisKey("E_W_GREEN")) == Level(0.2)
  {
    assert AxisKey("N_S_GREEN") == "N" by {
      assert "N_S_GREEN"[1] == '_';
    }
    assert AxisKey("E_W_GREEN") == "E" by {
      assert "E_W_GREEN"[1] == '_';
    }
  }

  /** The phases generated from the standard timings and estimates. */
  function StandardPhases(weighted: real): seq<Phase> {
    var ns, ew := NsGreen(weighted), EwGreen(weighted);
    [ Phase("N_S_GREEN", ns, 5, RedDuration(ns), if weighted > 0.7 then 1 else 2),
      Phase("E_W_GREEN", ew, 5, RedDuration(ew), 2) ]
  }

  /** Plan generation from the standard tables succeeds with the standard phases. */
  lemma StandardPlanGenerated(intersectionId: string, timestamp: string, weighted: real, predicted: real)
    ensures GeneratePlan(intersectionId, timestamp, CongestionEstimates(weighted, predicted), SignalTimings(weighted))
      == Ok(Plan(intersectionId, timestamp, RecommendationSource, StandardPhases(weighted),
                 CongestionEstimates(weighted, predicted), 1.0, 0.9))
  {
    EstimatesUnderPhaseKeys(weighted, predicted);
    var timings := SignalTimings(weighted);
    var phases := PhasesFor(CongestionEstimates(weighted, predicted), timings);
    assert phases.Ok?;
    assert phases.value == StandardPhases(weighted);
  }

  /** The standard phases yield exactly their two greens. */
  lemma StandardGreensExtracted(weighted: real)
    ensures ExtractGreens(StandardPhases(weighted)) == Ok(Greens(NsGreen(weighted), EwGreen(weighted)))
  {
    var phases := StandardPhases(weighted);
    StandardIdsExtracted(phases[0], phases[1]);
    assert phases == [phases[0], phases[1]];
  }

  /** The state derived from the standard phases, for a weighted congestion in [0, 1]. */
  lemma StandardStatesBuilt(weighted: real, currentTime: int)
    requires 0.0 <= weighted <= 1.0
    ensures var g := Greens(NsGreen(weighted), EwGreen(weighted));
      && 99 <= g.Cycle() <= 100
      && BuildSignalStates(StandardPhases(weighted), currentTime) == Ok(StateAt(g, PyMod(currentTime, g.Cycle())))
  {
    GreensInRange(weighted);
    StandardGreensExtracted(weighted);
  }

  /** Everything one controller step computes. */
  datatype Adjustment = Adjustment(
    congestion: real,
    predicted: real,
    weighted: real,
    plan: Plan,
    state: SignalState)

  /**
   * `adjust_signals` without its I/O: `feed` is the traffic sample (live or
   * fallback) and `rawPrediction` what the online model predicted for it.
   * The plan it builds is always well formed, so the step never fails.
   */
  function AdjustSignals(intersectionId: string, timestamp: string, feed: Feed, rawPrediction: real, currentTime: int := 0)
    : (r: Result<Adjustment, Fault>)
    ensures r.Ok?
    ensures r.value.weighted == WeightedCongestion(r.value.congestion, r.value.predicted)
    ensures r.value.plan == Plan(intersectionId, timestamp, RecommendationSource, StandardPhases(r.value.weighted),
                                 CongestionEstimates(r.value.weighted, r.value.predicted), 1.0, 0.9)
    ensures 0.0 <= r.value.congestion <= 1.0 && 0.0 <= r.value.predicted <= 1.0 && 0.0 <= r.value.weighted <= 1.0
    ensures r.value.congestion == ComputeCongestion(SpeedsOf(feed).0, SpeedsOf(feed).1)
    ensures r.value.predicted == ClampUnit(rawPrediction)
    ensures |r.value.plan.phases| == 2
    ensures r.value.plan.phases[0].phaseId == "N_S_GREEN" && r.value.plan.phases[1].phaseId == "E_W_GREEN"
    ensures 30 <= r.value.plan.phases[0].green <= 60 && 30 <= r.value.plan.phases[1].green <= 60
    ensures r.value.plan.phases[0].priority == (if r.value.weighted > 0.7 then 1 else 2)
    ensures r.value.plan.phases[1].priority == 2
    ensures var g := Greens(r.value.plan.phases[0].green, r.value.plan.phases[1].green);
      99 <= g.Cycle() <= 100 && r.value.state == StateAt(g, PyMod(currentTime, g.Cycle()))
  {
    var (currentSpeed, freeFlowSpeed) := SpeedsOf(feed);
    var congestion := ComputeCongestion(currentSpeed, freeFlowSpeed);
    var predicted := ClampUnit(rawPrediction);
    var weighted := WeightedCongestion(congestion, predicted);
    var timings := SignalTimings(weighted);
    var estimates := CongestionEstimates(weighted, predicted);
    GreensInRange(weighted);
    StandardPlanGenerated(intersectionId, timestamp, weighted, predicted);
    StandardStatesBuilt(weighted, currentTime);
    match GeneratePlan(intersectionId, timestamp, estimates, timings)
    case Err(e) => assert false; Err(e)
    case Ok(plan) =>
      match BuildSignalStates(plan.phases, currentTime)
      case Err(e) => assert false; Err(e)
      case Ok(state) => Ok(Adjustment(congestion, predicted, weighted, plan, state))
  }
}
