/**
 * The two enumerations of the presence-detection library that the optimizer and the
 * console use. The library itself (xensiv_radar_presence.h) is not part of this model;
 * only the values these files pass around are.
 */
module RadarPresence {
  /** xensiv_radar_presence_mode_t. `OtherMode` stands for any other value a caller casts
      into the enumeration; the code rejects it. */
  datatype PresenceMode = MacroOnly | MicroOnly | MicroIfMacro | MicroAndMacro | OtherMode(code: int)

  /** xensiv_radar_presence_state_t. */
  datatype PresenceState = MacroPresence | MicroPresence | Absence

  /** The four modes the optimizer and the console accept. */
  predicate Supported(m: PresenceMode) {
    m.MacroOnly? || m.MicroOnly? || m.MicroIfMacro? || m.MicroAndMacro?
  }
}
