# Adaptive traffic-signal simulator: decision logic in Dafny

This project models the deterministic decision logic of a small adaptive traffic-signal simulator and proves properties of it. The simulator has four parts that matter here:

- The signal agent turns a traffic-speed sample into a congestion value in [0, 1]. It then picks green times for the north-south (N-S) and east-west (E-W) axes and builds a phase plan. From the plan and the elapsed time it derives what each of the four approaches (N, S, E, W) shows. It also decides when to retrain its prediction model.
- The fairness agent keeps a ledger of accumulated wait-time credit per intersection. It ranks intersections by credit, highest first.
- A vehicle has an operating mode. Only a "smart" vehicle may leave "normal" mode.
- Each step of the simulation loop does five things. A drone scan may force an intersection's congestion to full. Vehicles may switch to eco mode. An emergency vehicle replaces its intersection's entry in the step's signal-state table, which nothing reads afterwards. Incidents raise congestion. Finally, congestion is folded into the fairness ledger.

Modules, one file each:

| file | module | models |
|---|---|---|
| common.dfy | `Common` | `Option` and `Result`, the stand-ins for `None` and raised exceptions |
| text.dfy | `Text` | substring test, `split("_")[0]`, ASCII `lower()` |
| ordered_map.dfy | `OrderedMaps` | Python dictionaries as insertion-ordered lists of (key, value) pairs |
| pyint.dfy | `PyInt` | Python's `%` (its result has the sign of the divisor) and `int()` on a real (truncation toward zero) |
| congestion.dfy | `Congestion` | `compute_congestion`, feed defaults, clamping of the prediction, weighted congestion |
| signal_plan.dfy | `SignalPlans` | `generate_signal_plan_output`, as a record |
| signal_state.dfy | `SignalStates` | `build_signal_states`, the periodic two-axis state machine |
| controller.dfy | `Controller` | the timing policy and the whole of `adjust_signals` except its I/O |
| retrain.dfy | `Retraining` | the decision rule of `check_and_retrain_model` |
| fairness.dfy | `Fairness` | `update_fairness` and `get_fair_signal_plan` |
| vehicle.dfy | `Vehicles` | `Vehicle.__init__` defaults, `update_mode`, `set_intersection` |
| routing.dfy | `Routing` | `route_vehicle`, as written and as evidently intended |
| simulation.dfy | `Simulation` | `generate_scenario` and the per-step rules of `simulation_loop` |

Modelling choices:

- Congestion and credit are exact `real`s, not floats. Signal times are `int`s.
- A dictionary is a sequence of pairs, so that iteration order and "last writer wins" can be stated.
- An exception the code can raise becomes an `Err` value:
  - `MissingPhase` for the `ValueError` in `build_signal_states`.
  - `ZeroCycle` for a zero cycle length, where `%` divides by zero.
  - `NotComparable` for comparing a nested estimate table with 0.7. Python 3 raises a `TypeError` there.
- `Vehicle.intersection` defaults to `None`, and the loop uses it as a dictionary key. So simulation keys are `Option<string>`.
- Randomness, the network, the clock and the learned model are parameters:
  - the traffic feed;
  - the model's raw prediction;
  - the refitted model;
  - the drone verdicts and approach directions;
  - the traffic sample near each vehicle;
  - the incident verdicts;
  - the timestamps.

Facts about the code that the model keeps:

- The green times use `int(...)`, which truncates. They are not rounded.
- At every instant exactly one axis is RED. During a yellow interval neither axis is GREEN. So "exactly one axis green" does not hold.
- A plan may hold several phases for one axis. The last one wins. A phase id containing both `N_S` and `E_W` counts as N-S only.
- The retrain timestamp is written only when a retrain was due. It is not written after every check.
- An emergency override never reaches a signal. The step prints the controller's states before the vehicle loop (simulation.py:95-111). The override at simulation.py:179 replaces an entry of `intersection_signal_states`, and nothing reads that table again before the step ends. `Simulation.Step` still reports the table as it stands after the loop, so that the override rule can be stated.

## Model

| member | source | states |
|---|---|---|
| Congestion.ComputeCongestion | agents/traffic_signal_agent.py:41-46 | The result lies in [0,1] when free-flow speed is positive. It is exactly 1.0 when free-flow speed is ≤ 0. It is 0 once current speed reaches free flow and 1 at or below speed 0. In between, congestion × free-flow equals the speed shortfall. |
| Congestion.CongestionMonotone | agents/traffic_signal_agent.py:42-44 | For a fixed free-flow speed, a higher current speed never gives higher congestion. |
| Congestion.SpeedsOf | agents/traffic_signal_agent.py:233-235 | A missing `flowSegmentData` reads as speeds (0, 0). Each missing speed field reads as 0. |
| Congestion.EmptyFeedIsGridlock | agents/traffic_signal_agent.py:233-237 | A feed with no segment or no free-flow field gives congestion 1.0. |
| Congestion.SlowTrafficExample | agents/traffic_signal_agent.py:41-44 | 10 km/h against a free flow of 60 gives 5/6. |
| Congestion.ClampUnit | agents/traffic_signal_agent.py:56 | The prediction is forced into [0,1]. Values already inside are kept. Values below become 0 and values above become 1. |
| Congestion.WeightedCongestion | agents/traffic_signal_agent.py:242 | The weighted value lies between current and predicted congestion, at equal distance from both. |
| PyInt.Trunc | agents/traffic_signal_agent.py:244-245 | `int(x)` is the integer within 1 of x on the side toward zero. |
| PyInt.PyMod | agents/traffic_signal_agent.py:106 | `a % b` lies in [0,b) for positive b and in (b,0] for negative b. It is the identity on that range. |
| PyInt.PyModPeriodic | agents/traffic_signal_agent.py:106 | `(a + b) % b == a % b`. |
| Controller.NsGreen | agents/traffic_signal_agent.py:244 | The N-S green is 30 + 30·w cut toward zero: within 1 of it, below it when it is non-negative and above it otherwise. |
| Controller.EwGreen | agents/traffic_signal_agent.py:245 | The E-W green is 30 + 30·(1 − w) cut toward zero: within 1 of it, below it when it is non-negative and above it otherwise. |
| Controller.CongestionEstimates | agents/traffic_signal_agent.py:248-254 | The table has exactly the five distinct keys N, S, E, W, predicted. N and S hold the weighted value, E and W hold 0.2, and "predicted" holds the nested table of N_S (the prediction) and E_W (0.2). |
| Controller.GreensInRange | agents/traffic_signal_agent.py:242-246 | For weighted congestion in [0,1], both greens lie in [30,60]. Together they fill 89 or 90 seconds. |
| Controller.GreensMonotone | agents/traffic_signal_agent.py:244-245 | More congestion never shortens N-S green and never lengthens E-W green. |
| Controller.EstimatesUnderPhaseKeys | agents/traffic_signal_agent.py:248-254 | The standard phase ids read their priority from keys "N" and "E". Those hold the weighted value and 0.2. |
| Controller.StandardPlanGenerated | agents/traffic_signal_agent.py:246-259 | From the controller's tables, plan generation succeeds. It gives an N-S phase with priority 1 exactly when weighted congestion exceeds 0.7, and an E-W phase with priority 2. |
| Controller.StandardGreensExtracted | agents/traffic_signal_agent.py:95-99 | The controller's two phases are read as exactly one N-S and one E-W green. |
| Controller.StandardStatesBuilt | agents/traffic_signal_agent.py:92-106 | For weighted congestion in [0,1], the state derived from the controller's phases is that of the elapsed time modulo a cycle of 99 or 100 s built from the two greens. |
| Controller.AdjustSignals | agents/traffic_signal_agent.py:231-263 | The step never fails. All three congestion values lie in [0,1]. The weighted value is the mean of the current and predicted values. The plan is the one generated from the controller's timing and estimate tables: its phases are the standard N_S_GREEN then E_W_GREEN phases, with greens in [30,60], and its estimates are the controller's table. E-W always has priority 2. The cycle is 99 or 100 s. The state is that of the elapsed time modulo the cycle. |
| SignalPlans.RedDuration | agents/traffic_signal_agent.py:72 | Red time is at least 10 s. Green plus red covers at least 90 s, and exactly 90 s whenever green ≤ 80. |
| SignalPlans.EstimateAt | agents/traffic_signal_agent.py:75 | A missing estimate key reads as level 0. |
| SignalPlans.PhasePriority | agents/traffic_signal_agent.py:73-77 | Priority is 1 iff the estimate under the id's prefix before the first `_` exceeds 0.7. It is 2 iff that estimate is ≤ 0.7. It fails iff that entry is a nested table. |
| SignalPlans.MissingEstimateIsOrdinary | agents/traffic_signal_agent.py:75 | A phase whose key has no estimate gets priority 2. |
| SignalPlans.MakePhase | agents/traffic_signal_agent.py:68-78 | One phase keeps the timing entry's id and green time. It has yellow 5, the red rule, and the priority rule. |
| SignalPlans.PhasesFor | agents/traffic_signal_agent.py:66-79 | There is one phase per timing entry, in order. Generation fails iff some entry's priority cannot be computed. The error names the key of the first such entry, where the loop raises. |
| SignalPlans.GeneratePlan | agents/traffic_signal_agent.py:58-90 | The plan carries the phase list, the estimates, the source tag "AI_AGENT_1", the confidence and the fairness score. It fails exactly when the phase list fails. |
| SignalPlans.PlanPhaseShape | agents/traffic_signal_agent.py:66-79 | Every generated phase has yellow 5 and red ≥ 10. Green plus red is at least 90. Priority is 1 iff its estimate exceeds 0.7, and 2 otherwise. |
| Text.SplitHead | agents/traffic_signal_agent.py:75 | `s.split(sep)[0]` is the longest prefix of s free of `sep`. It is followed by `sep` unless it is all of s. |
| Text.ContainsIffOccurs | agents/traffic_signal_agent.py:96-98 | `sub in s` holds iff sub occurs in s at some position. |
| Text.AbsentWithoutFirstChar | agents/traffic_signal_agent.py:96-98 | A string in which the first character of `sub` occurs at no possible start position does not contain `sub`. |
| Text.LowerAscii | simulation.py:140 | Lower-casing maps each ASCII capital to its small letter and keeps every other character. |
| SignalStates.StandardIdsExtracted | agents/traffic_signal_agent.py:95-99 | Two phases with ids N_S_GREEN and E_W_GREEN give exactly their own greens as the N-S and E-W greens. |
| SignalStates.LastGreen | agents/traffic_signal_agent.py:95-99 | The green read for an axis is absent iff no phase is on that axis. Otherwise it is the green of the last phase on that axis. |
| SignalStates.ExtractGreens | agents/traffic_signal_agent.py:92-101 | Extraction fails with `MissingPhase` iff the plan has no N-S phase or no E-W phase. Otherwise it gives the last green of each axis. |
| SignalStates.StandardPhaseIds | agents/traffic_signal_agent.py:96-98 | "N_S_GREEN" contains "N_S". "E_W_GREEN" contains "E_W" and not "N_S". |
| SignalStates.BothAxesNameCountsAsNorthSouth | agents/traffic_signal_agent.py:96-101 | A lone phase whose id names both axes counts only as N-S, so derivation raises `MissingPhase`. |
| SignalStates.StateAt | agents/traffic_signal_agent.py:103-168 | Exactly one axis is RED, and both axes are never GREEN together. N equals S and E equals W. Each next colour follows GREEN→YELLOW→RED→GREEN. Movements equal the current colour. Time remaining is ≥ 1 inside the cycle and, with non-negative greens, at most the rest of the cycle. |
| SignalStates.BuildSignalStates | agents/traffic_signal_agent.py:92-169 | It fails with `MissingPhase` when an axis has no phase, and with `ZeroCycle` when the cycle is 0. It fails in no other case. On success the state is that of the elapsed time modulo the cycle. |
| SignalStates.BuildSignalStatesPeriodic | agents/traffic_signal_agent.py:103-106 | The derived state at t + cycle equals the state at t. |
| SignalStates.NsLight | agents/traffic_signal_agent.py:108-114 | N-S is GREEN before its green ends, YELLOW until the N-S phase ends, and RED after. The time remaining reaches exactly the end of the current colour. The next colour follows GREEN→YELLOW→RED→GREEN, and movements equal the colour. |
| SignalStates.EwLight | agents/traffic_signal_agent.py:116-122 | E-W is RED until the N-S phase ends, then GREEN for its green time, then YELLOW. The time remaining reaches exactly the end of the current colour. The next colour follows GREEN→YELLOW→RED→GREEN, and movements equal the colour. |
| SignalStates.NsRemainingIsExact | agents/traffic_signal_agent.py:108-114 | With positive greens, N-S keeps its colour for exactly `time_remaining` seconds and then shows `next_color`. |
| SignalStates.EwRemainingIsExact | agents/traffic_signal_agent.py:116-122 | With positive greens, E-W keeps its colour for exactly `time_remaining` seconds and then shows `next_color`. |
| SignalStates.StartOfCycleExample | agents/traffic_signal_agent.py:103-168 | With greens 53/20 at t=0, N/S show GREEN for 53 s and then YELLOW. E/W show RED for 58 s and then GREEN. |
| Retraining.CheckAndRetrain | agents/traffic_signal_agent.py:208-222 | A retrain is due iff now − last > interval, strictly; an absent stamp, or one that does not parse as a number, counts as 0. When due, the model is replaced only by an actual refit, and the stamp becomes now either way. When not due, nothing changes. |
| Retraining.RetrainBoundary | agents/traffic_signal_agent.py:217 | A stamp interval+1 s old triggers a retrain. Stamps interval−1 s old or exactly interval s old do not. |
| Retraining.RecheckIsNoOp | agents/traffic_signal_agent.py:217-222 | With a non-negative interval, a second check at the same instant changes nothing. |
| Retraining.StampNeverRegresses | agents/traffic_signal_agent.py:217-222 | With a non-negative interval, the recorded retrain time never moves back. |
| OrderedMaps.Get | simulation.py:131 | `get` on an absent key returns the default and does not insert. |
| OrderedMaps.GetAt | simulation.py:124-126 | In a dictionary, `get` returns the value stored with the key. |
| OrderedMaps.Put | simulation.py:122 | Assignment keeps every key in place. It changes no entry of another key. It appends exactly when the key is new. |
| OrderedMaps.KeysOfIndex | agents/fairness_agent.py:14 | The key sequence lists the entries' keys in iteration order, position by position. |
| OrderedMaps.KeysOfHasKey | agents/fairness_agent.py:14 | A key is among the key sequence iff the dictionary holds it. |
| OrderedMaps.GetPut | agents/fairness_agent.py:11 | After `m[k] = v`, reading k gives v and reading any other key is unchanged. |
| Fairness.UpdateFairness | agents/fairness_agent.py:8-11 | The key's credit grows by exactly the amount, and an unseen key starts from 0. Every other key's credit is unchanged. A new key is appended at the end and existing keys keep their order. Keys stay distinct. |
| Fairness.UpdateFairnessKeys | agents/fairness_agent.py:8-11 | After an update the key sequence is unchanged when the key was present, and has the key appended when it was new. |
| Fairness.RepeatedUpdatesSum | agents/fairness_agent.py:8-11 | After updates a1..an to one key, its credit has grown by a1+…+an. |
| Fairness.FairSignalPlan | agents/fairness_agent.py:14 | The ranking is a permutation of the ledger's entries, ordered by non-increasing credit. |
| Fairness.FairSignalPlanStable | agents/fairness_agent.py:14 | For every credit value, the entries with that credit come out in ledger order, so the sort is stable. |
| Vehicles.NewVehicle | agents/vehicle.py:5-30 | A new vehicle keeps every argument as given. The constructor does not enforce the mode rule: a vehicle built non-smart with a mode other than "normal" breaks it. |
| Vehicles.NewVehicleDefaults | agents/vehicle.py:5-30 | A new vehicle is not smart, is in "normal" mode, and has no intersection. |
| Vehicles.UpdateMode | agents/vehicle.py:32-43 | A smart vehicle takes exactly the requested mode. A non-smart one is set to "normal". Nothing but the mode changes. |
| Vehicles.UpdateModeIdempotent | agents/vehicle.py:38-43 | Requesting the same mode twice equals requesting it once. |
| Vehicles.UpdateModeLastWins | agents/vehicle.py:38-43 | Of two requests, the later one decides the mode. |
| Vehicles.SetIntersection | agents/vehicle.py:45-49 | The intersection becomes the argument. Nothing else changes. |
| Vehicles.SettersCommute | agents/vehicle.py:32-49 | Setting mode and intersection in either order gives the same vehicle. |
| Simulation.GenerateScenario | simulation.py:27-33 | The result always has the same three street keys in order, with values in [0,1]. Unknown names get the default table. |
| Simulation.ScenarioLevel | simulation.py:124-126 | The baseline of each of the three streets lies in [0,1]. |
| Simulation.DroneScan | simulation.py:89-126 | The scan keeps congestion values in [0,1] and keys distinct. |
| Simulation.DroneScanStep | simulation.py:113-122 | One scan writes the street's level and leaves every other key as it was. |
| Simulation.DroneScanLevels | simulation.py:113-126 | After the scan, each scanned street is 1.0 if an emergency was detected and its scenario baseline otherwise. Every other key is untouched. |
| Simulation.PutInUnit | simulation.py:122 | Writing a value in [0,1] keeps all congestion values in [0,1]. |
| Simulation.EcoSwitch | simulation.py:140-145 | A non-emergency vehicle whose credit is strictly above 50 goes to "eco", or to "normal" if not smart. Otherwise the vehicle is unchanged. Only the mode can change. |
| Simulation.EmergencyState | simulation.py:155-178 | A direction is GREEN iff it is the approach direction, and RED otherwise. Every direction has 30 s remaining and the next colour after its own. Movements equal the colour. |
| Simulation.EmergencyGreensOnlyApproach | simulation.py:149-178 | For a real direction, exactly that direction is green. For any other name, none is. |
| Simulation.Escalate | simulation.py:207-209 | The site becomes max(old, 0.9), with absent counted as 0. Other keys are unchanged. Values stay in [0,1]. |
| Simulation.EscalateRaises | simulation.py:207-209 | Escalation never lowers a value, and the escalated site holds at least 0.9. |
| Simulation.ProcessVehicle | simulation.py:129-209 | One vehicle goes through the eco switch, reading the ledger without inserting. An emergency vehicle overwrites its intersection's state. An incident escalates congestion, for emergency vehicles too. |
| Simulation.EcoPass | simulation.py:129-145 | Each vehicle is replaced by its eco-switched self, in order, judged by the credit at its intersection. |
| Simulation.EmergencySitesMeaning | simulation.py:146-181 | An intersection is among the emergency sites iff some emergency vehicle among the first n is at it. |
| Simulation.OverridePass | simulation.py:146-181 | After the overrides, the state table holds exactly the computed intersections plus the intersections of emergency vehicles. |
| Simulation.IncidentPass | simulation.py:199-209 | The incident escalations of the loop keep congestion values in [0,1] and keys distinct. |
| Simulation.VehiclePass | simulation.py:129-209 | The vehicle loop keeps the vehicle count and eco-switches each vehicle in order. Its state table holds exactly the computed intersections plus those of emergency vehicles. It keeps congestion in [0,1] and keys distinct. |
| Simulation.VehiclePassIterates | simulation.py:129-209 | The loop, built from its three independent parts, equals `ProcessVehicle` applied to each vehicle in turn from the computed states and the scanned congestion. |
| Simulation.LastEmergency | simulation.py:146-181 | The index found is that of an emergency vehicle at the site with no later one. None means there is no such vehicle. |
| Simulation.LastEmergencyWins | simulation.py:146-181 | An intersection's final state is the override of the last emergency vehicle there in list order. Without one, its computed state is kept. |
| Simulation.IncidentsOnlyRaise | simulation.py:199-209 | After the escalations, a site holds max(old, 0.9) if some vehicle met an incident there, and its old value otherwise. So escalation never lowers congestion. |
| Simulation.FoldCredits | simulation.py:211-213 | With distinct condition keys, each intersection in the conditions gains exactly ten times its congestion, once. Every other credit is unchanged. Distinct ledger keys stay distinct. |
| Simulation.NewKeys | simulation.py:211-213 | The new keys are intersections of the conditions that the ledger did not hold. |
| Simulation.FoldCreditsKeys | simulation.py:211-213 | The fold's key sequence is the ledger's, extended one condition at a time with each key not yet present. |
| Simulation.KeyFoldAppends | simulation.py:211-213 | With distinct condition keys, that extension is the ledger's keys followed by the new keys in the conditions' order. |
| Simulation.FoldKeys | simulation.py:211-213 | The fold keeps every ledger key in its place and appends each intersection the ledger had not seen, in the conditions' order, as the `defaultdict` inserts them. |
| Simulation.FoldNeverLowers | simulation.py:211-213 | With congestion in [0,1], the fold never lowers a credit. |
| Routing.Subscript | agents/routing_agent.py:24 | Subscripting a dictionary gives the value stored under the key, or a `KeyError` when the key is absent. Subscripting a `Vehicle` object always raises a `TypeError`. |
| Routing.RouteVehicleAsWritten | agents/routing_agent.py:22-25 | The code as written succeeds iff it is handed a dictionary with an `id` key. Its message is that id followed by the advice. On a `Vehicle` object it raises a `TypeError`. |
| Routing.RouteVehicle | agents/routing_agent.py:22-25 | The message begins with the vehicle's id. It ends in the reroute advice iff the current speed is below 20, with a missing speed read as 0, and in the continue advice otherwise. |
| Routing.RouteVehicleAgrees | agents/routing_agent.py:22-25 | Handed a dictionary holding the vehicle's id, the code as written gives exactly the corrected message. |
| Simulation.Step | simulation.py:84-214 | A step keeps the vehicle count and applies the eco switch to each vehicle. It gives each vehicle the corrected routing advice for its traffic sample. It credits every intersection with ten times its final congestion. The ranking is a sorted permutation of the new ledger. With congestion in [0,1] it stays there, and no credit goes down. The final congestion is the drone scan followed by the incident escalations. The state table is the computed states after the overrides. The ranking is the stable sort of the new ledger. The new ledger is the fold of the final conditions into the old one, and distinct ledger keys stay distinct. Keys absent from the conditions keep their credit. |
| Simulation.StepStreetCongestion | simulation.py:113-126 | After a step, each street holds its drone level. It is raised to max(level, 0.9) exactly when some vehicle met an incident there. |
| Simulation.StepOtherCongestion | simulation.py:199-209 | After a step, any key other than the three streets keeps its old congestion. It is raised to max(old, 0.9) exactly when some vehicle met an incident there. |
| Simulation.StepOverrides | simulation.py:146-181 | In a step's state table, the last emergency vehicle at a site decides its override. A site without one keeps its computed state. |
| Simulation.StepLedgerOrder | simulation.py:211-214 | After a step, the ledger lists its old keys in place, followed by the intersections it had not seen, in the order of the final conditions. |
| Simulation.StepRankingStable | simulation.py:211-214 | A step's ranking lists intersections of equal credit in the order the new ledger holds them. With `Simulation.StepLedgerOrder`, that is first-seen order. |

## Left out

- Network access: `fetch_traffic_data` and `RoutingAgent.get_traffic_data`, including the random fallback sample. The sample is the `feed` input of `Controller.AdjustSignals`.
- The online regression model: its warm-up fit, `predict_future_congestion`'s predict/partial-fit, and `retrain_model_from_data`'s fit. These are floating-point learning inside a library. The raw prediction and the refitted model are inputs. Only the clamp at line 56 is modelled.
- Retraining on a history file that exists but holds no rows. The library raises there, and the model does not represent it. A refit is absent only when the history file is missing.
- File and clock I/O: the history CSV, reading and writing the retrain-timestamp file, and `datetime.utcnow()`. The timestamp text is a parameter. A stamp that does not parse as a number counts as 0, as the `except ValueError` does. A stamp file that exists but cannot be opened makes the code raise; that case is not modelled.
- The JSON `dumps`/`loads` round trip of the plan. The plan is a record passed on directly.
- The formatting of `intersection_{lat}_{lon}` from float coordinates. The identifier is a parameter.
- The retrain check and the history append at the end of `adjust_signals`. `Controller.AdjustSignals` covers the computation up to the state. The retrain rule is `Retraining.CheckAndRetrain`.
- `DroneAgent.scan_traffic`, which is pure randomness. Its emergency verdicts and approach directions are inputs of `Simulation.Step`.
- The incident detector. `IncidentAgent` is not part of this model; its verdict per vehicle is an input.
- `SmartVehicleAgent` messages, all printing, ANSI colouring, and `time.sleep`.
- Floating-point rounding. All congestion and credit arithmetic is exact.
- Python's Unicode `str.lower()`. `Text.LowerAscii` folds only ASCII capitals.
- Values of other dynamic types: green durations that are floats, estimate values that are neither numbers nor tables, a non-integer `current_time`.
- The multi-step run of `simulation_loop` with its fixed vehicle list. `Simulation.Step` is one iteration, and a run is repeated application. The controller's per-intersection states are the `computed` input.
- Simulation.Step: it routes each vehicle with `Routing.RouteVehicle`, the corrected definition. The code as written stops the loop at its first vehicle; see Findings.
- Retraining.CheckAndRetrain: stamps for which `last + interval` lies outside the range of Python's `datetime` (years 1 to 9999), and infinite or NaN stamps, are not modelled. In the not-due branch the log line at agents/traffic_signal_agent.py:225-228 calls `datetime.utcfromtimestamp` on that sum, which raises for them and ends the run. The model treats every not-yet-due stamp as a plain no-op.
- Controller.GreensInRange: states the range for weighted congestion in [0,1] only. `Controller.AdjustSignals` shows that this range always holds.

## Findings

| source | as written | input that shows it | evidently intended | confidence | as-written member | corrected member |
|---|---|---|---|---|---|---|
| agents/routing_agent.py:24-25 | `route_vehicle` builds its message from `vehicle['id']`. The loop at simulation.py:196 passes a `Vehicle` object, which defines no `__getitem__`. | Any vehicle of the loop, e.g. `Vehicle("V1", (37.7749, -122.4194), "Downtown", ...)`. Both branches raise `TypeError`, so the first step stops at the first vehicle. | Read the attribute, `vehicle.id`, and return the id followed by the advice. | high; not executed | Routing.RouteVehicleAsWritten (Routing.LoopVehiclesAreRejected shows every loop vehicle is rejected) | Routing.RouteVehicle (Routing.RouteVehicleAgrees ties it to the code as written on a dictionary holding the id; Simulation.Step uses it) |
