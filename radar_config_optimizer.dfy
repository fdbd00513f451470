/**
 * The frame-rate optimizer of radar_config_optimizer.c: it remembers the presence
 * mode the user selected and the frame-rate configuration in use, and on each presence
 * state decides which configuration the radar should run, calling the reconfiguration
 * callback exactly when that decision changes.
 */
module RadarConfigOptimizer {
  import opened Wrappers
  import opened RadarPresence

  /** optimization_type_e. */
  datatype OptimizationType = LowFrameRate | HighFrameRate | Uninitialized

  /** The enumerator values of optimization_type_e. */
  function OptimizationCode(o: OptimizationType): (c: nat)
    ensures o != Uninitialized <==> c < 2
  {
    match o
    case LowFrameRate => 0
    case HighFrameRate => 1
    case Uninitialized => 64
  }

  /** The optimization a stored code stands for, if any: the inverse of OptimizationCode. */
  function OptimizationOfCode(c: int): (o: Option<OptimizationType>)
    ensures o.Some? ==> OptimizationCode(o.value) == c
  {
    if c == 0 then Some(LowFrameRate)
    else if c == 1 then Some(HighFrameRate)
    else if c == 64 then Some(Uninitialized)
    else None
  }

  /** radar_configurator_status_e. */
  datatype Status = Success | Failure | InvalParamVal | ParmNotSupported | ParamUninitialized

  /** The enumerator values of radar_configurator_status_e. */
  function StatusCode(s: Status): (c: nat)
    ensures c < 5
  {
    match s
    case Success => 0
    case Failure => 1
    case InvalParamVal => 2
    case ParmNotSupported => 3
    case ParamUninitialized => 4
  }

  /** The reconfiguration callback, identified by a number; NULL is None. */
  type Callback = nat

  /** The configuration set_operational_mode seeds while none is chosen yet. */
  function SeedOptimization(mode: PresenceMode): (o: OptimizationType)
    ensures o != Uninitialized
    ensures mode == MacroOnly || mode == MicroIfMacro ==> o == LowFrameRate
    ensures mode == MicroOnly || mode == MicroAndMacro ==> o == HighFrameRate
  {
    if mode == MacroOnly || mode == MicroIfMacro then LowFrameRate else HighFrameRate
  }

  /**
   * The configuration radar_config_optimize asks for, given the selected mode, the current
   * configuration and the presence state (the case analysis before the comparison with
   * the current value). An unsupported mode asks for Uninitialized.
   */
  function RequestedOptimization(mode: PresenceMode, current: OptimizationType, state: PresenceState): (o: OptimizationType)
    ensures !Supported(mode) ==> o == Uninitialized
    ensures Consistent(mode, current) ==> o != Uninitialized
    ensures mode != MicroIfMacro && Supported(mode) ==> o == SeedOptimization(mode)
    ensures mode == MicroIfMacro && state == MacroPresence && current != Uninitialized ==>
      o != current && o != Uninitialized
    ensures mode == MicroIfMacro && state == MicroPresence ==> o == current
    ensures mode == MicroIfMacro && state == Absence ==> o == LowFrameRate
    ensures mode == MicroIfMacro && state == MacroPresence && current == Uninitialized ==> o == Uninitialized
  {
    if mode == MicroIfMacro then
      match state
      case MacroPresence =>
        if current == LowFrameRate then HighFrameRate
        else if current == HighFrameRate then LowFrameRate
        else Uninitialized
      case Absence => LowFrameRate
      case MicroPresence => current
    else if mode == MicroOnly || mode == MicroAndMacro then HighFrameRate
    else if mode == MacroOnly then LowFrameRate
    else Uninitialized
  }

  /** The states the optimizer can reach: the mode is always a supported one, and only the
      initial mode leaves the configuration uninitialised. */
  predicate Consistent(mode: PresenceMode, current: OptimizationType) {
    Supported(mode) && (current == Uninitialized ==> mode == MacroOnly)
  }

  /** The module-level `optimizer_state`. */
  class Optimizer {
    var selectedMode: PresenceMode
    var currentOptimization: OptimizationType
    var reconfigure: Option<Callback>

    ghost predicate Valid()
      reads this
    {
      Consistent(selectedMode, currentOptimization)
    }

    /** The static initialiser: macro-only, uninitialised, no callback. */
    constructor ()
      ensures Valid()
      ensures selectedMode == MacroOnly && currentOptimization == Uninitialized && reconfigure == None
    {
      selectedMode := MacroOnly;
      currentOptimization := Uninitialized;
      reconfigure := None;
    }

    /** radar_config_optimizer_init: a NULL callback is refused and nothing stored. */
    method Init(callback: Option<Callback>) returns (status: Status)
      requires Valid()
      modifies this
      ensures Valid()
      ensures status == Success || status == ParamUninitialized
      ensures callback.None? <==> status == ParamUninitialized
      ensures reconfigure == if callback.None? then old(reconfigure) else callback
      ensures selectedMode == old(selectedMode) && currentOptimization == old(currentOptimization)
    {
      if callback.None? {
        status := ParamUninitialized;
      } else {
        reconfigure := callback;
        status := Success;
      }
    }

    /**
     * radar_config_optimizer_set_operational_mode: an unsupported mode is refused and
     * changes nothing; a supported one is stored, and seeds the configuration only while
     * none is chosen yet.
     */
    method SetOperationalMode(mode: PresenceMode) returns (status: Status)
      requires Valid()
      modifies this
      ensures Valid()
      ensures status == Success || status == ParmNotSupported
      ensures status == Success <==> Supported(mode)
      ensures !Supported(mode) ==> unchanged(this)
      ensures Supported(mode) ==>
        && selectedMode == mode
        && currentOptimization == (if old(currentOptimization) == Uninitialized then SeedOptimization(mode)
                                   else old(currentOptimization))
      ensures reconfigure == old(reconfigure)
    {
      if mode == MacroOnly || mode == MicroOnly || mode == MicroIfMacro || mode == MicroAndMacro {
        selectedMode := mode;
        if currentOptimization == Uninitialized {
          if mode == MacroOnly || mode == MicroIfMacro {
            currentOptimization := LowFrameRate;
          } else {
            currentOptimization := HighFrameRate;
          }
        }
        status := Success;
      } else {
        status := ParmNotSupported;
      }
    }

    /**
     * radar_config_optimize: without a callback it fails and changes nothing; otherwise
     * it computes the requested configuration and, exactly when that differs from the
     * current one, stores it and calls the callback with it. `reconfigured` is the
     * argument of that call, None when there is none.
     */
    method Optimize(state: PresenceState) returns (status: Status, reconfigured: Option<OptimizationType>)
      requires Valid()
      modifies this
      ensures Valid()
      ensures old(reconfigure).None? ==> status == Failure && reconfigured == None && unchanged(this)
      ensures old(reconfigure).Some? ==>
        var requested := RequestedOptimization(old(selectedMode), old(currentOptimization), state);
        && status == Success
        && currentOptimization == requested
        && reconfigured == (if requested != old(currentOptimization) then Some(requested) else None)
      ensures selectedMode == old(selectedMode) && reconfigure == old(reconfigure)
    {
      if reconfigure.None? {
        return Failure, None;
      }
      var requested := RequestedOptimization(selectedMode, currentOptimization, state);
      reconfigured := None;
      if requested != currentOptimization {
        currentOptimization := requested;
        reconfigured := Some(requested);
      }
      status := Success;
    }

    /** radar_config_get_current_optimization. */
    method GetCurrentOptimization() returns (o: OptimizationType)
      ensures o == currentOptimization
    {
      o := currentOptimization;
    }
  }

  // ---------------------------------------------------------------- properties

  /** Only micro-if-macro looks at the presence state; the other supported modes ask for a
      fixed configuration whatever the current one and the state. */
  lemma FixedModesIgnorePresence(mode: PresenceMode, c1: OptimizationType, c2: OptimizationType,
                                 s1: PresenceState, s2: PresenceState)
    requires Supported(mode) && mode != MicroIfMacro
    ensures RequestedOptimization(mode, c1, s1) == RequestedOptimization(mode, c2, s2)
    ensures RequestedOptimization(mode, c1, s1) == (if mode == MacroOnly then LowFrameRate else HighFrameRate)
  {
  }

  /** In micro-if-macro mode macro presence toggles a chosen configuration, and toggling
      twice restores it. */
  lemma MacroPresenceToggles(current: OptimizationType)
    requires current != Uninitialized
    ensures RequestedOptimization(MicroIfMacro, current, MacroPresence) != current
    ensures RequestedOptimization(MicroIfMacro, RequestedOptimization(MicroIfMacro, current, MacroPresence), MacroPresence) == current
  {
  }

  /** Idempotence: apart from macro presence in micro-if-macro mode, asking again with the
      configuration just chosen asks for the same one, so a repeated optimize calls the
      callback no second time. */
  lemma RequestIsIdempotent(mode: PresenceMode, current: OptimizationType, state: PresenceState)
    requires !(mode == MicroIfMacro && state == MacroPresence)
    ensures
      var once := RequestedOptimization(mode, current, state);
      RequestedOptimization(mode, once, state) == once
  {
  }

  /** From every reachable state the requested configuration is a real one, so after any
      successful optimize the stored configuration is LOW or HIGH. */
  lemma RequestIsNeverUninitialized(mode: PresenceMode, current: OptimizationType, state: PresenceState)
    requires Consistent(mode, current)
    ensures RequestedOptimization(mode, current, state) != Uninitialized
    ensures OptimizationCode(RequestedOptimization(mode, current, state)) < 2
  {
  }

  /** Each step of the optimizer keeps Consistent; together with the constructor this
      makes it the invariant of every reachable state. */
  lemma StepsKeepConsistency(mode: PresenceMode, current: OptimizationType, newMode: PresenceMode, state: PresenceState)
    requires Consistent(mode, current)
    ensures Consistent(mode, RequestedOptimization(mode, current, state))
    ensures Supported(newMode) ==>
      Consistent(newMode, if current == Uninitialized then SeedOptimization(newMode) else current)
  {
  }

  /** The optimization codes are pairwise distinct and decode back. */
  lemma OptimizationCodesRoundTrip(o: OptimizationType, p: OptimizationType)
    ensures OptimizationOfCode(OptimizationCode(o)) == Some(o)
    ensures OptimizationCode(o) == OptimizationCode(p) ==> o == p
  {
  }

  /** The status codes are pairwise distinct. */
  lemma StatusCodesDistinct(s: Status, t: Status)
    ensures StatusCode(s) == StatusCode(t) ==> s == t
  {
  }
}
