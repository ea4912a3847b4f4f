/**
 * The per-direction signal state derived from a plan and an elapsed time: a
 * periodic two-axis cycle, N-S first and then E-W, each green and then yellow.
 */
module SignalStates {
  import opened Common
  import opened Text
  import opened SignalPlans
  import opened PyInt

  datatype Color = Green | Yellow | Red

  /** The colour that follows `c`: green, yellow, red, and round again. */
  function NextColor(c: Color): Color {
    match c
    case Green => Yellow
    case Yellow => Red
    case Red => Green
  }

  datatype Movements = Movements(left: Color, straight: Color, right: Color)

  /** What one approach shows: its colour, seconds until it changes, the colour after, and its turn arrows. */
  datatype Light = Light(color: Color, remaining: int, next: Color, movements: Movements)

  /** A light whose three movements all show the approach's own colour. */
  function Uniform(color: Color, remaining: int, next: Color): (l: Light)
    ensures l.color == color && l.remaining == remaining && l.next == next
    ensures l.movements.left == color && l.movements.straight == color && l.movements.right == color
  {
    Light(color, remaining, next, Movements(color, color, color))
  }

  datatype Direction = N | S | E | W

  function DirectionName(d: Direction): string {
    match d
    case N => "N"
    case S => "S"
    case E => "E"
    case W => "W"
  }

  datatype SignalState = SignalState(n: Light, s: Light, e: Light, w: Light) {
    function At(d: Direction): Light {
      match d
      case N => n
      case S => s
      case E => e
      case W => w
    }
  }

  /** The two signal axes; a phase belongs to N-S when its id contains `N_S`. */
  datatype Axis = NorthSouth | EastWest

  /** Whether a phase is read as the axis' phase: `N_S` is tested first, so it wins over `E_W`. */
  predicate OnAxis(p: Phase, axis: Axis) {
    match axis
    case NorthSouth => Contains(p.phaseId, "N_S")
    case EastWest => !Contains(p.phaseId, "N_S") && Contains(p.phaseId, "E_W")
  }

  /** The green time of the last phase on `axis` among the first `n`: later phases overwrite earlier ones. */
  function LastGreenAmong(phases: seq<Phase>, axis: Axis, n: nat): (r: Option<int>)
    requires n <= |phases|
    ensures r.None? <==> forall i | 0 <= i < n :: !OnAxis(phases[i], axis)
    ensures r.Some? ==> exists i | 0 <= i < n ::
      && OnAxis(phases[i], axis)
      && phases[i].green == r.value
      && forall j | i < j < n :: !OnAxis(phases[j], axis)
    decreases n
  {
    if n == 0 then None
    else if OnAxis(phases[n - 1], axis) then Some(phases[n - 1].green)
    else LastGreenAmong(phases, axis, n - 1)
  }

  /** The green time the loop over a plan's phases leaves for `axis`: that of the last phase on it. */
  function LastGreen(phases: seq<Phase>, axis: Axis): (r: Option<int>)
    ensures r.None? <==> forall i | 0 <= i < |phases| :: !OnAxis(phases[i], axis)
    ensures r.Some? ==> exists i | 0 <= i < |phases| ::
      && OnAxis(phases[i], axis)
      && phases[i].green == r.value
      && forall j | i < j < |phases| :: !OnAxis(phases[j], axis)
  {
    LastGreenAmong(phases, axis, |phases|)
  }

  /** The two green times a plan's state is derived from. */
  datatype Greens = Greens(ns: int, ew: int) {
    /** Seconds of N-S green plus yellow. */
    function NsPhase(): int { ns + YellowSeconds }
    /** One full cycle: both greens and both yellows. */
    function Cycle(): int { ns + ew + 2 * YellowSeconds }
  }

  /** The greens of a plan, or `MissingPhase` when either axis has no phase. */
  function ExtractGreens(phases: seq<Phase>): (r: Result<Greens, Fault>)
    ensures r.Err? <==>
      (forall i | 0 <= i < |phases| :: !OnAxis(phases[i], NorthSouth))
      || (forall i | 0 <= i < |phases| :: !OnAxis(phases[i], EastWest))
    ensures r.Err? ==> r.error == MissingPhase
    ensures r.Ok? ==> Some(r.value.ns) == LastGreen(phases, NorthSouth) && Some(r.value.ew) == LastGreen(phases, EastWest)
  {
    match (LastGreen(phases, NorthSouth), LastGreen(phases, EastWest))
    case (Some(ns), Some(ew)) => Ok(Greens(ns, ew))
    case _ => Err(MissingPhase)
  }

  /** `get_ns_state`: green, then yellow, then red for the rest of the cycle. */
  function NsLight(g: Greens, t: int): (l: Light)
    ensures l.color == Green <==> t < g.ns
    ensures l.color == Yellow <==> g.ns <= t < g.NsPhase()
    ensures l.color == Red <==> g.NsPhase() <= t
    ensures l.color == Green ==> t + l.remaining == g.ns
    ensures l.color == Yellow ==> t + l.remaining == g.NsPhase()
    ensures l.color == Red ==> t + l.remaining == g.Cycle()
    ensures l.next == NextColor(l.color) && l.movements == Movements(l.color, l.color, l.color)
  {
    if t < g.ns then Uniform(Green, g.ns - t, Yellow)
    else if t < g.NsPhase() then Uniform(Yellow, g.NsPhase() - t, Red)
    else Uniform(Red, g.Cycle() - t, Green)
  }

  /** `get_ew_state`: red while N-S runs, then green, then yellow. */
  function EwLight(g: Greens, t: int): (l: Light)
    ensures l.color == Red <==> t < g.NsPhase()
    ensures l.color == Green <==> g.NsPhase() <= t < g.NsPhase() + g.ew
    ensures l.color == Yellow <==> g.NsPhase() <= t && g.NsPhase() + g.ew <= t
    ensures l.color == Red ==> t + l.remaining == g.NsPhase()
    ensures l.color == Green ==> t + l.remaining == g.NsPhase() + g.ew
    ensures l.color == Yellow ==> t + l.remaining == g.Cycle()
    ensures l.next == NextColor(l.color) && l.movements == Movements(l.color, l.color, l.color)
  {
    if t < g.NsPhase() then Uniform(Red, g.NsPhase() - t, Green)
    else if t < g.NsPhase() + g.ew then Uniform(Green, g.NsPhase() + g.ew - t, Yellow)
    else Uniform(Yellow, g.Cycle() - t, Red)
  }

  /**
   * The state at position `t` of the cycle. Exactly one axis is red at every
   * instant, N mirrors S and E mirrors W, every movement shows its approach's
   * colour, and each next colour is the successor of the current one.
   */
  function StateAt(g: Greens, t: int): (st: SignalState)
    ensures (st.n.color == Red) != (st.e.color == Red)
    ensures !(st.n.color == Green && st.e.color == Green)
    ensures st.n == st.s && st.e == st.w
    ensures forall d: Direction :: st.At(d).next == NextColor(st.At(d).color)
    ensures forall d: Direction :: st.At(d).movements == Movements(st.At(d).color, st.At(d).color, st.At(d).color)
    ensures g.Cycle() > 0 && 0 <= t < g.Cycle() ==> forall d: Direction :: st.At(d).remaining >= 1
    ensures g.ns >= 0 && g.ew >= 0 ==> forall d: Direction :: st.At(d).remaining <= g.Cycle() - t
  {
    var ns := NsLight(g, t);
    var ew := EwLight(g, t);
    SignalState(ns, ns, ew, ew)
  }

  /** `build_signal_states`: the state of a plan's signals `currentTime` seconds in. */
  function BuildSignalStates(phases: seq<Phase>, currentTime: int := 0): (r: Result<SignalState, Fault>)
    ensures ExtractGreens(phases).Err? ==> r == Err(MissingPhase)
    ensures ExtractGreens(phases).Ok? && ExtractGreens(phases).value.Cycle() == 0 ==> r == Err(ZeroCycle)
    ensures r.Err? <==> ExtractGreens(phases).Err? || ExtractGreens(phases).value.Cycle() == 0
    ensures r.Ok? ==> var g := ExtractGreens(phases).value;
      g.Cycle() != 0 && r.value == StateAt(g, PyMod(currentTime, g.Cycle()))
  {
    match ExtractGreens(phases)
    case Err(e) => Err(e)
    case Ok(g) =>
      if g.Cycle() == 0 then Err(ZeroCycle)
      else Ok(StateAt(g, PyMod(currentTime, g.Cycle())))
  }

  /** The derived state repeats with the cycle length. */
  lemma BuildSignalStatesPeriodic(phases: seq<Phase>, currentTime: int)
    requires ExtractGreens(phases).Ok?
    ensures var cycle := ExtractGreens(phases).value.Cycle();
      BuildSignalStates(phases, currentTime + cycle) == BuildSignalStates(phases, currentTime)
  {
    var g := ExtractGreens(phases).value;
    if g.Cycle() != 0 {
      PyModPeriodic(currentTime, g.Cycle());
    }
  }

  /** With positive greens, N-S keeps its colour for exactly `remaining` seconds and then shows `next`. */
  lemma NsRemainingIsExact(g: Greens, t: int)
    requires g.ns > 0 && g.ew > 0
    requires 0 <= t < g.Cycle()
    ensures var l := NsLight(g, t);
      && t + l.remaining <= g.Cycle()
      && (forall u | t <= u < t + l.remaining :: NsLight(g, u).color == l.color)
      && NsLight(g, PyMod(t + l.remaining, g.Cycle())).color == l.next
  {
    if t >= g.NsPhase() {
      assert PyMod(g.Cycle(), g.Cycle()) == 0 by { PyModPeriodic(0, g.Cycle()); }
    }
  }

  /** With positive greens, E-W keeps its colour for exactly `remaining` seconds and then shows `next`. */
  lemma EwRemainingIsExact(g: Greens, t: int)
    requires g.ns > 0 && g.ew > 0
    requires 0 <= t < g.Cycle()
    ensures var l := EwLight(g, t);
      && t + l.remaining <= g.Cycle()
      && (forall u | t <= u < t + l.remaining :: EwLight(g, u).color == l.color)
      && EwLight(g, PyMod(t + l.remaining, g.Cycle())).color == l.next
  {
    if t >= g.NsPhase() + g.ew {
      assert PyMod(g.Cycle(), g.Cycle()) == 0 by { PyModPeriodic(0, g.Cycle()); }
    }
  }

  /** The standard phase ids fall on the expected axes. */
  lemma StandardPhaseIds()
    ensures Contains("N_S_GREEN", "N_S")
    ensures !Contains("E_W_GREEN", "N_S") && Contains("E_W_GREEN", "E_W")
  {
    AbsentWithoutFirstChar("E_W_GREEN", "N_S");
  }

  /** A plan of one "N_S_GREEN" phase followed by one "E_W_GREEN" phase yields exactly their two greens. */
  lemma StandardIdsExtracted(ns: Phase, ew: Phase)
    requires ns.phaseId == "N_S_GREEN" && ew.phaseId == "E_W_GREEN"
    ensures ExtractGreens([ns, ew]) == Ok(Greens(ns.green, ew.green))
  {
    StandardPhaseIds();
    var phases := [ns, ew];
    assert phases[0] == ns && phases[1] == ew;
    assert OnAxis(ns, NorthSouth) && OnAxis(ew, EastWest) && !OnAxis(ew, NorthSouth);
    assert LastGreenAmong(phases, NorthSouth, 1) == Some(ns.green);
    assert LastGreenAmong(phases, NorthSouth, 2) == Some(ns.green);
    assert LastGreenAmong(phases, EastWest, 2) == Some(ew.green);
  }

  /** `ns_green = 53, ew_green = 20` at time 0: N-S green for 53 s, E-W red for 58 s. */
  lemma StartOfCycleExample()
    ensures var phases := [Phase("N_S_GREEN", 53, 5, 37, 1), Phase("E_W_GREEN", 20, 5, 70, 2)];
      BuildSignalStates(phases, 0) == Ok(SignalState(
        Uniform(Green, 53, Yellow), Uniform(Green, 53, Yellow),
        Uniform(Red, 58, Green), Uniform(Red, 58, Green)))
  {
    StandardIdsExtracted(Phase("N_S_GREEN", 53, 5, 37, 1), Phase("E_W_GREEN", 20, 5, 70, 2));
  }

  /** A phase naming both axes counts for N-S only, so a plan made of it alone has no E-W phase. */
  lemma BothAxesNameCountsAsNorthSouth()
    ensures BuildSignalStates([Phase("N_S_E_W", 40, 5, 50, 2)], 7) == Err(MissingPhase)
  {
    var p := Phase("N_S_E_W", 40, 5, 50, 2);
    assert Contains(p.phaseId, "N_S");
    assert !OnAxis([p][0], EastWest);
  }
}
