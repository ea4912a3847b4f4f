/**
 * The per-step rules of the simulation loop: the drone scan of each
 * intersection, the per-vehicle eco switch, emergency override and incident
 * escalation, and the fold of congestion into the fairness ledger.
 */
module Simulation {
  import opened Common
  import opened Text
  import opened OrderedMaps
  import opened SignalStates
  import opened Fairness
  import opened Vehicles
  import opened Congestion
  import opened Routing

  /** An intersection key; a vehicle need not be at one, and then its key is `None`. */
  type Site = Option<string>

  /** Congestion per intersection, in first-seen order. */
  type Conditions = OrderedMap<Site, real>

  const Intersections: seq<string> := ["1st_Street", "2nd_Street", "3rd_Street"]

  /** All congestion values lie in [0, 1]. */
  predicate InUnit(c: Conditions) {
    forall i | 0 <= i < |c| :: 0.0 <= c[i].1 <= 1.0
  }

  /** Writing a value in [0, 1] keeps every congestion value in [0, 1]. */
  lemma PutInUnit(c: Conditions, site: Site, level: real)
    requires InUnit(c) && 0.0 <= level <= 1.0
    ensures InUnit(Put(c, site, level))
  {
    var r := Put(c, site, level);
    PutEntries(c, site, level);
    forall i | 0 <= i < |r| ensures 0.0 <= r[i].1 <= 1.0 {
      assert r[i] in r;
      if r[i] != (site, level) {
        var j :| 0 <= j < |c| && c[j] == r[i];
      }
    }
  }

  function ScenarioTable(first: real, second: real, third: real): Conditions {
    [(Some(Intersections[0]), first), (Some(Intersections[1]), second), (Some(Intersections[2]), third)]
  }

  /** `generate_scenario`: baseline congestion of the three streets; any unknown name gets the default table. */
  function GenerateScenario(scenario: string): (r: Conditions)
    ensures |r| == |Intersections|
    ensures forall i | 0 <= i < |Intersections| :: r[i].0 == Some(Intersections[i])
    ensures InUnit(r) && DistinctKeys(r)
    ensures scenario != "rush_hour" && scenario != "accident" ==> r == ScenarioTable(0.3, 0.4, 0.3)
  {
    if scenario == "rush_hour" then ScenarioTable(0.9, 0.8, 0.2)
    else if scenario == "accident" then ScenarioTable(0.1, 0.95, 0.5)
    else ScenarioTable(0.3, 0.4, 0.3)
  }

  /** `generate_scenario(scenario)[site]` for one of the three streets. */
  function ScenarioLevel(scenario: string, i: nat): (level: real)
    requires i < |Intersections|
    ensures 0.0 <= level <= 1.0
  {
    var table := GenerateScenario(scenario);
    GetAt(table, i, 0.0);
    Get(table, Some(Intersections[i]), 0.0)
  }

  /** After the drone scan: full congestion on a detected emergency, otherwise back to the baseline. */
  function DroneLevel(scenario: string, i: nat, emergency: bool): real
    requires i < |Intersections|
  {
    if emergency then 1.0 else ScenarioLevel(scenario, i)
  }

  /** The three street names differ (already in their first characters). */
  lemma IntersectionsDistinct(i: nat, j: nat)
    requires i < j < |Intersections|
    ensures Intersections[i] != Intersections[j]
  {
    assert Intersections[i][0] != Intersections[j][0];
  }

  function SitesBefore(n: nat): set<Site>
    requires n <= |Intersections|
  {
    set i | 0 <= i < n :: Some(Intersections[i])
  }

  /** The drone scans of the first `n` intersections, in order; `emergencies[i]` is the scan's verdict. */
  function DroneScan(conditions: Conditions, scenario: string, emergencies: seq<bool>, n: nat): (r: Conditions)
    requires |emergencies| == |Intersections| && n <= |Intersections|
    ensures DistinctKeys(conditions) ==> DistinctKeys(r)
    ensures InUnit(conditions) ==> InUnit(r)
    decreases n
  {
    if n == 0 then conditions
    else
      var prev := DroneScan(conditions, scenario, emergencies, n - 1);
      var site := Some(Intersections[n - 1]);
      var level := DroneLevel(scenario, n - 1, emergencies[n - 1]);
      PutDistinct(prev, site, level);
      if InUnit(prev) then PutInUnit(prev, site, level); Put(prev, site, level)
      else Put(prev, site, level)
  }

  /** One scan step writes the street's level and leaves every other key as it was. */
  lemma DroneScanStep(conditions: Conditions, scenario: string, emergencies: seq<bool>, n: nat)
    requires |emergencies| == |Intersections| && 0 < n <= |Intersections|
    ensures var r, prev := DroneScan(conditions, scenario, emergencies, n), DroneScan(conditions, scenario, emergencies, n - 1);
      && Get(r, Some(Intersections[n - 1]), 0.0) == DroneLevel(scenario, n - 1, emergencies[n - 1])
      && forall k | k != Some(Intersections[n - 1]) :: Get(r, k, 0.0) == Get(prev, k, 0.0)
  {
    var prev := DroneScan(conditions, scenario, emergencies, n - 1);
    var site := Some(Intersections[n - 1]);
    var level := DroneLevel(scenario, n - 1, emergencies[n - 1]);
    GetPut(prev, site, level, site, 0.0);
    PutFrame(prev, site, level, 0.0);
  }

  /**
   * After the scan every scanned intersection holds 1.0 on an emergency and its
   * scenario baseline otherwise, whatever it held before; other keys are untouched.
   */
  lemma {:induction false} DroneScanLevels(conditions: Conditions, scenario: string, emergencies: seq<bool>, n: nat)
    requires |emergencies| == |Intersections| && n <= |Intersections|
    ensures var r := DroneScan(conditions, scenario, emergencies, n);
      && (forall i | 0 <= i < n :: Get(r, Some(Intersections[i]), 0.0) == DroneLevel(scenario, i, emergencies[i]))
      && (forall k | k !in SitesBefore(n) :: Get(r, k, 0.0) == Get(conditions, k, 0.0))
    decreases n
  {
    if n > 0 {
      DroneScanLevels(conditions, scenario, emergencies, n - 1);
      DroneScanStep(conditions, scenario, emergencies, n);
      var r := DroneScan(conditions, scenario, emergencies, n);
      forall i | 0 <= i < n - 1 ensures Get(r, Some(Intersections[i]), 0.0) == DroneLevel(scenario, i, emergencies[i]) {
        IntersectionsDistinct(i, n - 1);
      }
      forall k | k !in SitesBefore(n) ensures Get(r, k, 0.0) == Get(conditions, k, 0.0) {
        assert k != Some(Intersections[n - 1]) && k !in SitesBefore(n - 1);
      }
    }
  }

  /**
   * What one vehicle meets in one step: the drone's approach direction, the
   * traffic sample near it and the incident detector's verdict on that sample.
   */
  datatype VehicleSignals = VehicleSignals(approach: Option<string>, traffic: FlowSegment, incident: bool)

  /** Case-insensitive test for emergency mode. */
  predicate IsEmergency(v: Vehicle) {
    LowerAscii(v.mode) == "emergency"
  }

  const EcoThreshold: real := 50.0

  /** A non-emergency vehicle waiting at an intersection with more than 50 credit asks for eco mode. */
  predicate WantsEco(v: Vehicle, wait: real) {
    !IsEmergency(v) && wait > EcoThreshold
  }

  /** The eco switch applied to one vehicle given the credit at its intersection. */
  function EcoSwitch(v: Vehicle, wait: real): (r: Vehicle)
    ensures WantsEco(v, wait) && v.smart ==> r.mode == "eco"
    ensures WantsEco(v, wait) && !v.smart ==> r.mode == NormalMode
    ensures !WantsEco(v, wait) ==> r == v
    ensures r.(mode := v.mode) == v
  {
    if WantsEco(v, wait) then UpdateMode(v, "eco") else v
  }

  /**
   * The override an emergency vehicle forces on its intersection: the approach
   * direction green for 30 s, then yellow; every other direction red for 30 s, then green.
   */
  function EmergencyState(approach: string): (st: SignalState)
    ensures forall d: Direction :: st.At(d).color == Green <==> DirectionName(d) == approach
    ensures forall d: Direction :: st.At(d).color == Red <==> DirectionName(d) != approach
    ensures forall d: Direction :: st.At(d).remaining == 30 && st.At(d).next == NextColor(st.At(d).color)
    ensures forall d: Direction :: st.At(d).movements == Movements(st.At(d).color, st.At(d).color, st.At(d).color)
  {
    var light := (d: Direction) =>
      if DirectionName(d) == approach then Uniform(Green, 30, Yellow) else Uniform(Red, 30, Green);
    SignalState(light(N), light(S), light(E), light(W))
  }

  /** The approach direction reported by the drone, `"N"` when it reports none. */
  function ApproachOf(signals: VehicleSignals): string {
    signals.approach.GetOr("N")
  }

  /** The directions showing green. */
  function GreenDirections(st: SignalState): set<Direction> {
    (if st.n.color == Green then {N} else {}) + (if st.s.color == Green then {S} else {})
    + (if st.e.color == Green then {E} else {}) + (if st.w.color == Green then {W} else {})
  }

  /** An override for a real direction turns exactly that direction green; any other name turns none green. */
  lemma EmergencyGreensOnlyApproach(approach: string)
    ensures forall d: Direction :: DirectionName(d) == approach ==> GreenDirections(EmergencyState(approach)) == {d}
    ensures approach !in {"N", "S", "E", "W"} ==> GreenDirections(EmergencyState(approach)) == {}
  {
    var st := EmergencyState(approach);
    assert st.n == st.At(N) && st.s == st.At(S) && st.e == st.At(E) && st.w == st.At(W);
  }

  /** The state of the vehicle pass after some vehicles have been processed. */
  datatype Pass = Pass(vehicles: seq<Vehicle>, states: map<Site, SignalState>, conditions: Conditions)

  /** `max(conditions.get(site, 0), 0.9)` written back to `site`. */
  function Escalate(conditions: Conditions, site: Site): (r: Conditions)
    ensures Get(r, site, 0.0) == Max(Get(conditions, site, 0.0), 0.9)
    ensures forall k | k != site :: Get(r, k, 0.0) == Get(conditions, k, 0.0)
    ensures DistinctKeys(conditions) ==> DistinctKeys(r)
    ensures InUnit(conditions) ==> InUnit(r)
  {
    var level := Max(Get(conditions, site, 0.0), 0.9);
    var r := Put(conditions, site, level);
    GetPut(conditions, site, level, site, 0.0);
    assert forall k | k != site :: Get(r, k, 0.0) == Get(conditions, k, 0.0) by {
      PutFrame(conditions, site, level, 0.0);
    }
    PutDistinct(conditions, site, level);
    if InUnit(conditions) then
      assert level <= 1.0 by {
        GetIsEntry(conditions, site, 0.0);
        if HasKey(conditions, site) {
          var i :| 0 <= i < |conditions| && conditions[i] == (site, Get(conditions, site, 0.0));
        }
      }
      PutInUnit(conditions, site, level); r
    else r
  }

  /** Escalation never lowers a value and leaves at least 0.9 at the escalated site. */
  lemma EscalateRaises(conditions: Conditions, site: Site, k: Site)
    ensures Get(Escalate(conditions, site), k, 0.0) >= Get(conditions, k, 0.0)
    ensures k == site ==> Get(Escalate(conditions, site), k, 0.0) >= 0.9
  {
    if k != site {
      assert Get(Escalate(conditions, site), k, 0.0) == Get(conditions, k, 0.0);
    }
  }

  /**
   * One iteration of the vehicle loop: read the credit at the vehicle's
   * intersection (without inserting it), switch to eco or install the
   * emergency override, then escalate on an incident. The escalation sits
   * outside the if/elif/else, so it applies to emergency vehicles too.
   */
  function ProcessVehicle(ledger: Ledger<Site>, p: Pass, v: Vehicle, signals: VehicleSignals): (r: Pass)
    ensures r.vehicles == p.vehicles + [EcoSwitch(v, Credit(ledger, v.intersection))]
    ensures IsEmergency(v) ==> r.states == p.states[v.intersection := EmergencyState(ApproachOf(signals))]
    ensures !IsEmergency(v) ==> r.states == p.states
    ensures signals.incident ==> r.conditions == Escalate(p.conditions, v.intersection)
    ensures !signals.incident ==> r.conditions == p.conditions
  {
    var wait := Credit(ledger, v.intersection);
    var (vehicle, states) :=
      if WantsEco(v, wait) then (UpdateMode(v, "eco"), p.states)
      else if IsEmergency(v) then (v, p.states[v.intersection := EmergencyState(ApproachOf(signals))])
      else (v, p.states);
    var conditions := if signals.incident then Escalate(p.conditions, v.intersection) else p.conditions;
    Pass(p.vehicles + [vehicle], states, conditions)
  }

  /** The eco-switched first `n` vehicles, in order, each judged by the credit at its intersection. */
  function EcoPass(ledger: Ledger<Site>, vehicles: seq<Vehicle>, n: nat): (r: seq<Vehicle>)
    requires n <= |vehicles|
    ensures |r| == n
    ensures forall i | 0 <= i < n :: r[i] == EcoSwitch(vehicles[i], Credit(ledger, vehicles[i].intersection))
    decreases n
  {
    if n == 0 then []
    else
      var prev := EcoPass(ledger, vehicles, n - 1);
      var r := prev + [EcoSwitch(vehicles[n - 1], Credit(ledger, vehicles[n - 1].intersection))];
      assert forall i | 0 <= i < n - 1 :: r[i] == prev[i];
      r
  }

  /** The intersections of the emergency vehicles among the first `n`. */
  function EmergencySites(vehicles: seq<Vehicle>, n: nat): set<Site>
    requires n <= |vehicles|
    decreases n
  {
    if n == 0 then {}
    else if IsEmergency(vehicles[n - 1]) then EmergencySites(vehicles, n - 1) + {vehicles[n - 1].intersection}
    else EmergencySites(vehicles, n - 1)
  }

  /** An intersection is an emergency site exactly when some emergency vehicle among the first `n` is at it. */
  lemma {:induction false} EmergencySitesMeaning(vehicles: seq<Vehicle>, n: nat, site: Site)
    requires n <= |vehicles|
    ensures site in EmergencySites(vehicles, n) <==> exists i | 0 <= i < n :: IsEmergency(vehicles[i]) && vehicles[i].intersection == site
    decreases n
  {
    if n > 0 {
      EmergencySitesMeaning(vehicles, n - 1, site);
    }
  }

  /** The signal states after the emergency overrides of the first `n` vehicles. */
  function OverridePass(states: map<Site, SignalState>, vehicles: seq<Vehicle>, signals: seq<VehicleSignals>, n: nat)
    : (r: map<Site, SignalState>)
    requires n <= |vehicles| == |signals|
    ensures r.Keys == states.Keys + EmergencySites(vehicles, n)
    decreases n
  {
    if n == 0 then states
    else
      var prev := OverridePass(states, vehicles, signals, n - 1);
      if IsEmergency(vehicles[n - 1]) then prev[vehicles[n - 1].intersection := EmergencyState(ApproachOf(signals[n - 1]))]
      else prev
  }

  /** The congestion after the incident escalations of the first `n` vehicles. */
  function IncidentPass(conditions: Conditions, vehicles: seq<Vehicle>, signals: seq<VehicleSignals>, n: nat): (r: Conditions)
    requires n <= |vehicles| == |signals|
    ensures InUnit(conditions) ==> InUnit(r)
    ensures DistinctKeys(conditions) ==> DistinctKeys(r)
    decreases n
  {
    if n == 0 then conditions
    else
      var prev := IncidentPass(conditions, vehicles, signals, n - 1);
      if signals[n - 1].incident then Escalate(prev, vehicles[n - 1].intersection) else prev
  }

  /**
   * The vehicle loop over the first `n` vehicles, from an empty list of updated
   * vehicles. The three parts of the pass evolve independently of each other.
   */
  function VehiclePass(ledger: Ledger<Site>, states: map<Site, SignalState>, conditions: Conditions,
                       vehicles: seq<Vehicle>, signals: seq<VehicleSignals>, n: nat): (r: Pass)
    requires n <= |vehicles| == |signals|
    ensures |r.vehicles| == n
    ensures forall i | 0 <= i < n :: r.vehicles[i] == EcoSwitch(vehicles[i], Credit(ledger, vehicles[i].intersection))
    ensures r.states.Keys == states.Keys + EmergencySites(vehicles, n)
    ensures InUnit(conditions) ==> InUnit(r.conditions)
    ensures DistinctKeys(conditions) ==> DistinctKeys(r.conditions)
  {
    Pass(EcoPass(ledger, vehicles, n), OverridePass(states, vehicles, signals, n), IncidentPass(conditions, vehicles, signals, n))
  }

  /** The loop is `ProcessVehicle` repeated: each vehicle takes the pass one iteration further. */
  lemma VehiclePassIterates(ledger: Ledger<Site>, states: map<Site, SignalState>, conditions: Conditions,
                            vehicles: seq<Vehicle>, signals: seq<VehicleSignals>, n: nat)
    requires n <= |vehicles| == |signals|
    ensures n == 0 ==> VehiclePass(ledger, states, conditions, vehicles, signals, n) == Pass([], states, conditions)
    ensures n > 0 ==>
      VehiclePass(ledger, states, conditions, vehicles, signals, n)
      == ProcessVehicle(ledger, VehiclePass(ledger, states, conditions, vehicles, signals, n - 1), vehicles[n - 1], signals[n - 1])
  {
  }

  /** The index of the last emergency vehicle at `site` among the first `n`, if any. */
  function LastEmergency(vehicles: seq<Vehicle>, n: nat, site: Site): (r: Option<nat>)
    requires n <= |vehicles|
    ensures r.None? ==> forall j | 0 <= j < n :: !(IsEmergency(vehicles[j]) && vehicles[j].intersection == site)
    ensures r.Some? ==> r.value < n && IsEmergency(vehicles[r.value]) && vehicles[r.value].intersection == site
    ensures r.Some? ==> forall j | r.value < j < n :: !(IsEmergency(vehicles[j]) && vehicles[j].intersection == site)
    decreases n
  {
    if n == 0 then None
    else if IsEmergency(vehicles[n - 1]) && vehicles[n - 1].intersection == site then Some(n - 1)
    else LastEmergency(vehicles, n - 1, site)
  }

  /**
   * The override at an intersection is the one of the LAST emergency vehicle
   * there in list order; an intersection without one keeps its computed state.
   */
  lemma {:induction false} LastEmergencyWins(
    states: map<Site, SignalState>, vehicles: seq<Vehicle>, signals: seq<VehicleSignals>, n: nat, site: Site)
    requires n <= |vehicles| == |signals|
    ensures var r := OverridePass(states, vehicles, signals, n);
      match LastEmergency(vehicles, n, site)
      case Some(i) => site in r && r[site] == EmergencyState(ApproachOf(signals[i]))
      case None => (site in r <==> site in states) && (site in r ==> r[site] == states[site])
    decreases n, 1
  {
    if n > 0 {
      LastEmergencyWinsStep(states, vehicles, signals, n, site);
    }
  }

  /** The induction step of `LastEmergencyWins`: the claim for `n - 1` vehicles carries over to `n`. */
  lemma LastEmergencyWinsStep(
    states: map<Site, SignalState>, vehicles: seq<Vehicle>, signals: seq<VehicleSignals>, n: nat, site: Site)
    requires 0 < n <= |vehicles| == |signals|
    ensures var r := OverridePass(states, vehicles, signals, n);
      match LastEmergency(vehicles, n, site)
      case Some(i) => site in r && r[site] == EmergencyState(ApproachOf(signals[i]))
      case None => (site in r <==> site in states) && (site in r ==> r[site] == states[site])
    decreases n, 0
  {
    LastEmergencyWins(states, vehicles, signals, n - 1, site);
    LastEmergencyStep(vehicles, n, site);
    OverrideStep(states, vehicles, signals, n);
    OverrideWinsStep(states, OverridePass(states, vehicles, signals, n - 1), LastEmergency(vehicles, n - 1, site),
                     vehicles, signals, n, site);
  }

  /** The induction step of `LastEmergencyWins`, for any earlier states `prev` and last emergency `last`. */
  lemma OverrideWinsStep(states: map<Site, SignalState>, prev: map<Site, SignalState>, last: Option<nat>,
                         vehicles: seq<Vehicle>, signals: seq<VehicleSignals>, n: nat, site: Site)
    requires 0 < n <= |vehicles| == |signals|
    requires last.Some? ==> last.value < n - 1
    requires match last
      case Some(i) => site in prev && prev[site] == EmergencyState(ApproachOf(signals[i]))
      case None => (site in prev <==> site in states) && (site in prev ==> prev[site] == states[site])
    ensures var v := vehicles[n - 1];
      var r := if IsEmergency(v) then prev[v.intersection := EmergencyState(ApproachOf(signals[n - 1]))] else prev;
      match (if IsEmergency(v) && v.intersection == site then Some(n - 1) else last)
      case Some(i) => site in r && r[site] == EmergencyState(ApproachOf(signals[i]))
      case None => (site in r <==> site in states) && (site in r ==> r[site] == states[site])
  {
  }

  /** One more vehicle: it is the last emergency at `site` if it is one there, otherwise nothing changes. */
  lemma LastEmergencyStep(vehicles: seq<Vehicle>, n: nat, site: Site)
    requires 0 < n <= |vehicles|
    ensures LastEmergency(vehicles, n, site)
      == if IsEmergency(vehicles[n - 1]) && vehicles[n - 1].intersection == site then Some(n - 1)
         else LastEmergency(vehicles, n - 1, site)
  {
  }

  /** One more vehicle: an emergency vehicle overrides its intersection, any other leaves the states alone. */
  lemma OverrideStep(states: map<Site, SignalState>, vehicles: seq<Vehicle>, signals: seq<VehicleSignals>, n: nat)
    requires 0 < n <= |vehicles| == |signals|
    ensures OverridePass(states, vehicles, signals, n)
      == if IsEmergency(vehicles[n - 1])
         then OverridePass(states, vehicles, signals, n - 1)[vehicles[n - 1].intersection := EmergencyState(ApproachOf(signals[n - 1]))]
         else OverridePass(states, vehicles, signals, n - 1)
  {
  }

  /** Some vehicle among the first `n` met an incident at `site`. */
  predicate IncidentAt(vehicles: seq<Vehicle>, signals: seq<VehicleSignals>, n: nat, site: Site)
    requires n <= |vehicles| == |signals|
  {
    exists i | 0 <= i < n :: signals[i].incident && vehicles[i].intersection == site
  }

  /**
   * After the escalations a site holds `max(old, 0.9)` if some incident fired
   * there and its old value otherwise; so escalation never lowers congestion.
   */
  lemma {:induction false} IncidentsOnlyRaise(
    conditions: Conditions, vehicles: seq<Vehicle>, signals: seq<VehicleSignals>, n: nat, site: Site)
    requires n <= |vehicles| == |signals|
    ensures Get(IncidentPass(conditions, vehicles, signals, n), site, 0.0)
      == if IncidentAt(vehicles, signals, n, site) then Max(Get(conditions, site, 0.0), 0.9) else Get(conditions, site, 0.0)
    decreases n
  {
    if n > 0 {
      IncidentsOnlyRaise(conditions, vehicles, signals, n - 1, site);
      var prev := IncidentPass(conditions, vehicles, signals, n - 1);
      var v := vehicles[n - 1];
      if signals[n - 1].incident && v.intersection == site {
        assert IncidentAt(vehicles, signals, n, site) by {
          assert signals[n - 1].incident && vehicles[n - 1].intersection == site;
        }
        assert Get(IncidentPass(conditions, vehicles, signals, n), site, 0.0) == Max(Get(prev, site, 0.0), 0.9);
      } else {
        assert Get(IncidentPass(conditions, vehicles, signals, n), site, 0.0) == Get(prev, site, 0.0);
        assert IncidentAt(vehicles, signals, n, site) == IncidentAt(vehicles, signals, n - 1, site) by {
          if IncidentAt(vehicles, signals, n, site) {
            var i :| 0 <= i < n && signals[i].incident && vehicles[i].intersection == site;
            assert i < n - 1;
          }
        }
      }
    }
  }

  /** `k` is the key of one of the first `n` conditions. */
  predicate AmongFirst(conditions: Conditions, n: nat, k: Site)
    requires n <= |conditions|
  {
    exists i | 0 <= i < n :: conditions[i].0 == k
  }

  /** The fairness fold: each entry of the first `n` conditions adds ten times its congestion, in order. */
  function FoldCredits(ledger: Ledger<Site>, conditions: Conditions, n: nat): (r: Ledger<Site>)
    requires n <= |conditions|
    ensures DistinctKeys(conditions) ==>
      forall i | 0 <= i < n :: Credit(r, conditions[i].0) == Credit(ledger, conditions[i].0) + conditions[i].1 * 10.0
    ensures forall k | !AmongFirst(conditions, n, k) :: Credit(r, k) == Credit(ledger, k)
    ensures DistinctKeys(ledger) ==> DistinctKeys(r)
    decreases n
  {
    if n == 0 then ledger
    else
      var prev := FoldCredits(ledger, conditions, n - 1);
      UpdateFairness(prev, conditions[n - 1].0, conditions[n - 1].1 * 10.0)
  }

  /** The keys of the first `n` conditions the ledger has not seen, in the conditions' order. */
  function NewKeys(ledger: Ledger<Site>, conditions: Conditions, n: nat): (ks: seq<Site>)
    requires n <= |conditions|
    ensures forall k | k in ks :: !HasKey(ledger, k) && exists i | 0 <= i < n :: conditions[i].0 == k
    decreases n
  {
    if n == 0 then []
    else
      var prev := NewKeys(ledger, conditions, n - 1);
      if HasKey(ledger, conditions[n - 1].0) then prev else prev + [conditions[n - 1].0]
  }

  /** With distinct condition keys, the next condition's key is not yet among the new keys. */
  lemma NewKeysExclude(ledger: Ledger<Site>, conditions: Conditions, n: nat)
    requires n < |conditions| && DistinctKeys(conditions)
    ensures conditions[n].0 !in NewKeys(ledger, conditions, n)
  {
  }

  /** The keys after folding the first `n` conditions into a ledger whose keys are `keys`: each key is appended unless present. */
  function KeyFold(keys: seq<Site>, conditions: Conditions, n: nat): seq<Site>
    requires n <= |conditions|
    decreases n
  {
    if n == 0 then keys
    else
      var prev := KeyFold(keys, conditions, n - 1);
      if conditions[n - 1].0 in prev then prev else prev + [conditions[n - 1].0]
  }

  /** The fold's keys follow `KeyFold`, one fairness update per condition. */
  lemma {:induction false} FoldCreditsKeys(ledger: Ledger<Site>, conditions: Conditions, n: nat)
    requires n <= |conditions|
    ensures KeysOf(FoldCredits(ledger, conditions, n)) == KeyFold(KeysOf(ledger), conditions, n)
    decreases n, 1
  {
    if n > 0 {
      FoldCreditsKeysStep(ledger, conditions, n);
    }
  }

  /** The induction step of `FoldCreditsKeys`. */
  lemma FoldCreditsKeysStep(ledger: Ledger<Site>, conditions: Conditions, n: nat)
    requires 0 < n <= |conditions|
    ensures KeysOf(FoldCredits(ledger, conditions, n)) == KeyFold(KeysOf(ledger), conditions, n)
    decreases n, 0
  {
    FoldCreditsKeys(ledger, conditions, n - 1);
    KeyFoldStep(FoldCredits(ledger, conditions, n - 1), KeysOf(ledger), conditions, n);
  }

  /** One fairness update extends `KeyFold` by one condition. */
  lemma KeyFoldStep(prev: Ledger<Site>, keys: seq<Site>, conditions: Conditions, n: nat)
    requires 0 < n <= |conditions|
    requires KeysOf(prev) == KeyFold(keys, conditions, n - 1)
    ensures KeysOf(UpdateFairness(prev, conditions[n - 1].0, conditions[n - 1].1 * 10.0)) == KeyFold(keys, conditions, n)
  {
    UpdateFairnessKeys(prev, conditions[n - 1].0, conditions[n - 1].1 * 10.0);
  }

  /** Starting from the ledger's own keys, `KeyFold` appends exactly the new keys. */
  lemma {:induction false} KeyFoldAppends(ledger: Ledger<Site>, conditions: Conditions, n: nat)
    requires n <= |conditions| && DistinctKeys(conditions)
    ensures KeyFold(KeysOf(ledger), conditions, n) == KeysOf(ledger) + NewKeys(ledger, conditions, n)
    decreases n
  {
    if n > 0 {
      var k := conditions[n - 1].0;
      KeyFoldAppends(ledger, conditions, n - 1);
      KeysOfHasKey(ledger, k);
      NewKeysExclude(ledger, conditions, n - 1);
      AppendUnseen(KeysOf(ledger), NewKeys(ledger, conditions, n - 1), k);
    }
  }

  /**
   * The fold keeps the ledger's keys in place and appends each unseen
   * intersection in the conditions' order, as the `defaultdict` inserts them.
   */
  lemma FoldKeys(ledger: Ledger<Site>, conditions: Conditions, n: nat)
    requires n <= |conditions| && DistinctKeys(conditions)
    ensures KeysOf(FoldCredits(ledger, conditions, n)) == KeysOf(ledger) + NewKeys(ledger, conditions, n)
  {
    FoldCreditsKeys(ledger, conditions, n);
    KeyFoldAppends(ledger, conditions, n);
  }

  /** Appending a key not yet among `base + later` to the whole is appending it to `later`. */
  lemma AppendUnseen(base: seq<Site>, later: seq<Site>, k: Site)
    requires k !in later
    ensures k in base + later <==> k in base
    ensures (base + later) + [k] == base + (later + [k])
  {
  }

  /** The routing advice for each vehicle, in order. */
  function AdviceAll(vehicles: seq<Vehicle>, signals: seq<VehicleSignals>): (r: seq<string>)
    requires |signals| == |vehicles|
    ensures |r| == |vehicles|
    ensures forall i | 0 <= i < |vehicles| :: r[i] == RouteVehicle(vehicles[i], signals[i].traffic)
  {
    seq(|vehicles|, i requires 0 <= i < |vehicles| => RouteVehicle(vehicles[i], signals[i].traffic))
  }

  /** The world carried from one step to the next. */
  datatype World = World(conditions: Conditions, ledger: Ledger<Site>, vehicles: seq<Vehicle>)

  /**
   * What a step produces: the per-intersection signal-state table as it stands
   * after the vehicle loop, the routing advice per vehicle and the fairness
   * ranking. The code prints the controller's states before the loop; the
   * emergency overrides replace entries of the table afterwards, and nothing
   * reads the table again before the step ends.
   */
  datatype Report = Report(states: map<Site, SignalState>, advice: seq<string>, ranking: seq<(Site, real)>)

  /**
   * One simulation step. `computed` holds the controller's state for each
   * intersection, `emergencies` the drone verdict per intersection and
   * `signals` the per-vehicle drone and incident readings.
   */
  function Step(scenario: string, w: World, computed: map<Site, SignalState>, emergencies: seq<bool>, signals: seq<VehicleSignals>)
    : (r: (World, Report))
    requires |emergencies| == |Intersections| && |signals| == |w.vehicles|
    requires DistinctKeys(w.conditions)
    ensures |r.0.vehicles| == |w.vehicles|
    ensures forall i | 0 <= i < |w.vehicles| :: r.0.vehicles[i] == EcoSwitch(w.vehicles[i], Credit(w.ledger, w.vehicles[i].intersection))
    ensures forall i | 0 <= i < |r.0.conditions| ::
      Credit(r.0.ledger, r.0.conditions[i].0) == Credit(w.ledger, r.0.conditions[i].0) + r.0.conditions[i].1 * 10.0
    ensures |r.1.advice| == |w.vehicles|
    ensures forall i | 0 <= i < |w.vehicles| :: r.1.advice[i] == RouteVehicle(w.vehicles[i], signals[i].traffic)
    ensures SortedByCredit(r.1.ranking) && multiset(r.1.ranking) == multiset(r.0.ledger)
    ensures InUnit(w.conditions) ==> InUnit(r.0.conditions)
    ensures InUnit(w.conditions) ==> forall k :: Credit(r.0.ledger, k) >= Credit(w.ledger, k)
    ensures DistinctKeys(r.0.conditions)
    ensures r.0.conditions == IncidentPass(DroneScan(w.conditions, scenario, emergencies, |Intersections|), w.vehicles, signals, |w.vehicles|)
    ensures r.1.states == OverridePass(computed, w.vehicles, signals, |w.vehicles|)
    ensures r.1.ranking == FairSignalPlan(r.0.ledger)
    ensures r.0.ledger == FoldCredits(w.ledger, r.0.conditions, |r.0.conditions|)
    ensures DistinctKeys(w.ledger) ==> DistinctKeys(r.0.ledger)
    ensures forall k | !AmongFirst(r.0.conditions, |r.0.conditions|, k) :: Credit(r.0.ledger, k) == Credit(w.ledger, k)
  {
    var scanned := DroneScan(w.conditions, scenario, emergencies, |Intersections|);
    var pass := VehiclePass(w.ledger, computed, scanned, w.vehicles, signals, |w.vehicles|);
    var ledger := FoldCredits(w.ledger, pass.conditions, |pass.conditions|);
    assert InUnit(w.conditions) ==> forall k :: Credit(ledger, k) >= Credit(w.ledger, k) by {
      if InUnit(w.conditions) {
        forall k ensures Credit(ledger, k) >= Credit(w.ledger, k) {
          FoldNeverLowers(w.ledger, pass.conditions, k);
        }
      }
    }
    var advice := AdviceAll(pass.vehicles, signals);
    assert forall i | 0 <= i < |w.vehicles| :: advice[i] == RouteVehicle(w.vehicles[i], signals[i].traffic) by {
      forall i | 0 <= i < |w.vehicles| ensures advice[i] == RouteVehicle(w.vehicles[i], signals[i].traffic) {
        assert pass.vehicles[i].id == w.vehicles[i].id;
      }
    }
    (World(pass.conditions, ledger, pass.vehicles), Report(pass.states, advice, FairSignalPlan(ledger)))
  }

  /** The congestion a step leaves at street `i`: its drone level, raised to at least 0.9 when an incident fired there. */
  lemma StepStreetCongestion(scenario: string, w: World, computed: map<Site, SignalState>, emergencies: seq<bool>,
                             signals: seq<VehicleSignals>, i: nat)
    requires |emergencies| == |Intersections| && |signals| == |w.vehicles|
    requires DistinctKeys(w.conditions) && i < |Intersections|
    ensures var c := Step(scenario, w, computed, emergencies, signals).0.conditions;
      var site, level := Some(Intersections[i]), DroneLevel(scenario, i, emergencies[i]);
      Get(c, site, 0.0) == if IncidentAt(w.vehicles, signals, |w.vehicles|, site) then Max(level, 0.9) else level
  {
    var scanned := DroneScan(w.conditions, scenario, emergencies, |Intersections|);
    DroneScanLevels(w.conditions, scenario, emergencies, |Intersections|);
    IncidentsOnlyRaise(scanned, w.vehicles, signals, |w.vehicles|, Some(Intersections[i]));
  }

  /** Any key other than the three streets keeps its old congestion, raised to at least 0.9 when an incident fired there. */
  lemma StepOtherCongestion(scenario: string, w: World, computed: map<Site, SignalState>, emergencies: seq<bool>,
                            signals: seq<VehicleSignals>, site: Site)
    requires |emergencies| == |Intersections| && |signals| == |w.vehicles|
    requires DistinctKeys(w.conditions) && site !in SitesBefore(|Intersections|)
    ensures var c := Step(scenario, w, computed, emergencies, signals).0.conditions;
      var prior := Get(w.conditions, site, 0.0);
      Get(c, site, 0.0) == if IncidentAt(w.vehicles, signals, |w.vehicles|, site) then Max(prior, 0.9) else prior
  {
    var scanned := DroneScan(w.conditions, scenario, emergencies, |Intersections|);
    DroneScanLevels(w.conditions, scenario, emergencies, |Intersections|);
    IncidentsOnlyRaise(scanned, w.vehicles, signals, |w.vehicles|, site);
  }

  /** A step's signal-state table: the last emergency vehicle at a site decides its override; other sites keep the computed state. */
  lemma StepOverrides(scenario: string, w: World, computed: map<Site, SignalState>, emergencies: seq<bool>,
                      signals: seq<VehicleSignals>, site: Site)
    requires |emergencies| == |Intersections| && |signals| == |w.vehicles|
    requires DistinctKeys(w.conditions)
    ensures var states := Step(scenario, w, computed, emergencies, signals).1.states;
      match LastEmergency(w.vehicles, |w.vehicles|, site)
      case Some(i) => site in states && states[site] == EmergencyState(ApproachOf(signals[i]))
      case None => (site in states <==> site in computed) && (site in states ==> states[site] == computed[site])
  {
    LastEmergencyWins(computed, w.vehicles, signals, |w.vehicles|, site);
  }

  /** A step's ledger keeps its keys in place and appends the intersections it had not seen, in the conditions' order. */
  lemma StepLedgerOrder(scenario: string, w: World, computed: map<Site, SignalState>, emergencies: seq<bool>,
                        signals: seq<VehicleSignals>)
    requires |emergencies| == |Intersections| && |signals| == |w.vehicles|
    requires DistinctKeys(w.conditions)
    ensures var r := Step(scenario, w, computed, emergencies, signals);
      KeysOf(r.0.ledger) == KeysOf(w.ledger) + NewKeys(w.ledger, r.0.conditions, |r.0.conditions|)
  {
    var r := Step(scenario, w, computed, emergencies, signals);
    FoldKeys(w.ledger, r.0.conditions, |r.0.conditions|);
  }

  /** A step's ranking lists intersections of equal credit in the ledger's first-seen order. */
  lemma StepRankingStable(scenario: string, w: World, computed: map<Site, SignalState>, emergencies: seq<bool>,
                          signals: seq<VehicleSignals>, c: real)
    requires |emergencies| == |Intersections| && |signals| == |w.vehicles|
    requires DistinctKeys(w.conditions)
    ensures var r := Step(scenario, w, computed, emergencies, signals);
      WithCredit(r.1.ranking, c) == WithCredit(r.0.ledger, c)
  {
    var r := Step(scenario, w, computed, emergencies, signals);
    FairSignalPlanStable(r.0.ledger, c);
  }

  /** Folding congestion values in [0, 1] never lowers any credit. */
  lemma FoldNeverLowers(ledger: Ledger<Site>, conditions: Conditions, k: Site)
    requires DistinctKeys(conditions) && InUnit(conditions)
    ensures Credit(FoldCredits(ledger, conditions, |conditions|), k) >= Credit(ledger, k)
  {
    if i :| 0 <= i < |conditions| && conditions[i].0 == k {
      assert 0.0 <= conditions[i].1;
    }
  }
}
