/** The 16-state TAP controller of IEEE 1149.1, as tap_state_machine.cpp implements it. */
module TapController {

  datatype TapState =
    | TestLogicReset | RunTestIdle | SelectDrScan | SelectIrScan
    | CaptureDr | CaptureIr | ShiftDr | ShiftIr
    | Exit1Dr | Exit1Ir | PauseDr | PauseIr
    | Exit2Dr | Exit2Ir | UpdateDr | UpdateIr

  /** The state after a rising clock edge. */
  function Next(s: TapState, tms: bool): TapState {
    match s
    case TestLogicReset => if tms then TestLogicReset else RunTestIdle
    case RunTestIdle => if tms then SelectDrScan else RunTestIdle
    case SelectDrScan => if tms then SelectIrScan else CaptureDr
    case SelectIrScan => if tms then TestLogicReset else CaptureIr
    case CaptureDr => if tms then Exit1Dr else ShiftDr
    case CaptureIr => if tms then Exit1Ir else ShiftIr
    case ShiftDr => if tms then Exit1Dr else ShiftDr
    case ShiftIr => if tms then Exit1Ir else ShiftIr
    case Exit1Dr => if tms then UpdateDr else PauseDr
    case Exit1Ir => if tms then UpdateIr else PauseIr
    case PauseDr => if tms then Exit2Dr else PauseDr
    case PauseIr => if tms then Exit2Ir else PauseIr
    case Exit2Dr => if tms then UpdateDr else ShiftDr
    case Exit2Ir => if tms then UpdateIr else ShiftIr
    case UpdateDr => if tms then SelectDrScan else RunTestIdle
    case UpdateIr => if tms then SelectDrScan else RunTestIdle
  }

  /** The state after a series of rising edges. */
  function NextAll(s: TapState, tms: seq<bool>): TapState
    decreases |tms|
  {
    if tms == [] then s else NextAll(Next(s, tms[0]), tms[1..])
  }
}
