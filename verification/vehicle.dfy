/** Vehicles and their operating-mode rule: only smart vehicles may leave "normal" mode. */
module Vehicles {
  import opened Common

  datatype Vehicle = Vehicle(
    id: string,
    location: (real, real),
    destination: string,
    smart: bool,
    mode: string,
    intersection: Option<string>)

  const NormalMode: string := "normal"

  /** `Vehicle(...)`: a plain vehicle in "normal" mode, at no intersection, unless told otherwise. */
  function NewVehicle(
    id: string,
    location: (real, real),
    destination: string,
    smart: bool := false,
    mode: string := NormalMode,
    intersection: Option<string> := None): (v: Vehicle)
    ensures v.id == id && v.location == location && v.destination == destination
    ensures v.smart == smart && v.mode == mode && v.intersection == intersection
    ensures ModePinned(v) <==> smart || mode == NormalMode
  {
    Vehicle(id, location, destination, smart, mode, intersection)
  }

  /** The constructor's defaults: not smart, "normal" mode, no intersection. */
  lemma NewVehicleDefaults(id: string, location: (real, real), destination: string)
    ensures var v := NewVehicle(id, location, destination);
      !v.smart && v.mode == "normal" && v.intersection == None
      && v.id == id && v.location == location && v.destination == destination
  {
  }

  /** A vehicle whose mode respects the rule that non-smart vehicles stay in "normal" mode. */
  predicate ModePinned(v: Vehicle) {
    v.smart || v.mode == NormalMode
  }

  /** `update_mode`: a smart vehicle takes the requested mode, any other is put back to "normal". */
  function UpdateMode(v: Vehicle, newMode: string): (r: Vehicle)
    ensures v.smart ==> r.mode == newMode
    ensures !v.smart ==> r.mode == NormalMode
    ensures r.(mode := v.mode) == v
    ensures ModePinned(r)
  {
    if v.smart then v.(mode := newMode) else v.(mode := NormalMode)
  }

  /** Asking for the same mode twice is the same as asking once. */
  lemma UpdateModeIdempotent(v: Vehicle, newMode: string)
    ensures UpdateMode(UpdateMode(v, newMode), newMode) == UpdateMode(v, newMode)
  {
  }

  /** The last requested mode wins on a smart vehicle. */
  lemma UpdateModeLastWins(v: Vehicle, first: string, second: string)
    ensures UpdateMode(UpdateMode(v, first), second) == UpdateMode(v, second)
  {
  }

  /** `set_intersection`: move the vehicle to `intersection`, leaving every other field alone. */
  function SetIntersection(v: Vehicle, intersection: Option<string>): (r: Vehicle)
    ensures r.intersection == intersection
    ensures r.(intersection := v.intersection) == v
  {
    v.(intersection := intersection)
  }

  /** The two setters touch different fields, so their order does not matter. */
  lemma SettersCommute(v: Vehicle, newMode: string, intersection: Option<string>)
    ensures SetIntersection(UpdateMode(v, newMode), intersection) == UpdateMode(SetIntersection(v, intersection), newMode)
  {
  }
}
