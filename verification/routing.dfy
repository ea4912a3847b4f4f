/**
 * The routing advice given to each vehicle: reroute when the current speed
 * near it is below 20 km/h, carry on otherwise. The code as written looks the
 * vehicle's id up by subscripting, which a `Vehicle` object does not support;
 * `RouteVehicleAsWritten` models that, `RouteVehicle` the evident intent.
 */
module Routing {
  import opened Common
  import opened OrderedMaps
  import opened Congestion
  import opened Vehicles

  /** The two kinds of value `route_vehicle` may be handed: a dictionary, or a `Vehicle` object. */
  datatype PyValue = Dict(entries: OrderedMap<string, string>) | Object(vehicle: Vehicle)

  /** Python's `TypeError` (no `__getitem__`) and `KeyError`. */
  datatype Fault = NotSubscriptable | MissingKey(key: string)

  /** Python's `value[key]`: a dictionary lookup that raises on a missing key; any other object raises. */
  function Subscript(value: PyValue, key: string): (r: Result<string, Fault>)
    ensures value.Object? ==> r == Err(NotSubscriptable)
    ensures value.Dict? && !HasKey(value.entries, key) ==> r == Err(MissingKey(key))
    ensures value.Dict? && HasKey(value.entries, key) ==> r.Ok? && (key, r.value) in value.entries
  {
    match value
    case Object(_) => Err(NotSubscriptable)
    case Dict(entries) =>
      if HasKey(entries, key) then
        GetIsEntry(entries, key, "");
        Ok(Get(entries, key, ""))
      else Err(MissingKey(key))
  }

  /** Below this current speed (km/h) a vehicle is rerouted. */
  const RerouteSpeed: real := 20.0
  const RerouteAdvice: string := " → rerouted to avoid congestion."
  const ContinueAdvice: string := " → continue on current path."

  /** The advice for a traffic sample whose missing `currentSpeed` reads as 0. */
  function AdviceFor(data: FlowSegment): string {
    if data.currentSpeed.GetOr(0.0) < RerouteSpeed then RerouteAdvice else ContinueAdvice
  }

  /** `route_vehicle` as written: both branches subscript the vehicle with `'id'`. */
  function RouteVehicleAsWritten(vehicle: PyValue, data: FlowSegment): (r: Result<string, Fault>)
    ensures r.Ok? <==> vehicle.Dict? && HasKey(vehicle.entries, "id")
    ensures vehicle.Object? ==> r == Err(NotSubscriptable)
    ensures r.Ok? ==> exists i | 0 <= i < |vehicle.entries| ::
      vehicle.entries[i].0 == "id" && r.value == vehicle.entries[i].1 + AdviceFor(data)
  {
    match Subscript(vehicle, "id")
    case Err(e) => Err(e)
    case Ok(id) =>
      assert exists i | 0 <= i < |vehicle.entries| :: vehicle.entries[i] == ("id", id);
      Ok(id + AdviceFor(data))
  }

  /** Every vehicle the simulation loop routes is a `Vehicle` object, so every call raises. */
  lemma LoopVehiclesAreRejected(v: Vehicle, data: FlowSegment)
    ensures RouteVehicleAsWritten(Object(v), data).Err?
  {
  }

  /** `route_vehicle` reading the `id` attribute: the id followed by the advice for the sample. */
  function RouteVehicle(v: Vehicle, data: FlowSegment): (r: string)
    ensures |r| > |v.id| && r[..|v.id|] == v.id
    ensures r[|v.id|..] == RerouteAdvice <==> data.currentSpeed.GetOr(0.0) < RerouteSpeed
    ensures r[|v.id|..] == ContinueAdvice <==> data.currentSpeed.GetOr(0.0) >= RerouteSpeed
  {
    var r := v.id + AdviceFor(data);
    assert r[|v.id|..] == AdviceFor(data);
    assert RerouteAdvice != ContinueAdvice by {
      assert RerouteAdvice[3] != ContinueAdvice[3];
    }
    r
  }

  /** Handed a dictionary that holds the vehicle's id, the code as written gives the corrected advice. */
  lemma RouteVehicleAgrees(v: Vehicle, entries: OrderedMap<string, string>, data: FlowSegment)
    requires DistinctKeys(entries) && ("id", v.id) in entries
    ensures RouteVehicleAsWritten(Dict(entries), data) == Ok(RouteVehicle(v, data))
  {
    var i :| 0 <= i < |entries| && entries[i] == ("id", v.id);
    GetAt(entries, i, "");
  }
}
