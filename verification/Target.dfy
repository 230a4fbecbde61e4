/** The whole target as a value: pins, TAP, the register pairs behind it, and the transaction-level
    core; and the meaning of every command character. The classes in RemoteBitbang.dfy implement
    these functions in place; the laws in the other files are proved about them. */
module Target {
  import opened Words
  import opened TapController
  import opened Transactions

  datatype Machine = Machine(
    tck: bool, tms: bool, tdi: bool, tdo: bool, quit: bool,
    tap: TapState,
    ir: Byte, irShift: Byte,
    idcode: Word, idcodeShift: Word,
    dtmcs: Word, dtmcsShift: Word,
    dmiShift: DWord,
    shiftAmount: Byte,
    core: Core)

  // ---------------------------------------------------------------- registers the IR selects

  const IR_IDCODE: Byte := 0x01
  const IR_DTMCS: Byte := 0x10
  const IR_DMI: Byte := 0x11

  const IDCODE_VALUE: Word := 0x2000_0913

  /** version 1, abits 7 */
  const DTMCS_VALUE: Word := 0x71

  predicate Selects(ir: Byte) {
    ir == IR_IDCODE || ir == IR_DTMCS || ir == IR_DMI
  }

  // ---------------------------------------------------------------- power-on state

  const DMCONTROL_INITIAL := DmControl(0, 0, 0, 0, 0, 0, 0, 0, 0, 0, 0, 0, 0, 0)
  const ABSTRACTCS_INITIAL := AbstractCs(0, 0, 0, 0, 0)
  const DPC_INITIAL: Word := 0x4000_0000

  function InitialCore(cpu: Cpu): Core {
    Core(Packet(DMCONTROL, 1, NOP),
         DebugModule(DMCONTROL_INITIAL, ABSTRACTCS_INITIAL, 0, seq(12, i => 0), 0, DPC_INITIAL),
         cpu)
  }

  /** The program leaves the TAP state and TDO unset, so they are parameters. */
  function PowerOn(tap: TapState, tdo: bool, cpu: Cpu): Machine {
    Machine(true, true, true, tdo, false, tap, IR_IDCODE, 0, IDCODE_VALUE, 0, DTMCS_VALUE, 0, 0, 0, InitialCore(cpu))
  }

  // ---------------------------------------------------------------- clock edges

  /** A falling edge in Shift-DR. The first one after a capture only counts. */
  function ShiftDrEdge(m: Machine): Machine {
    if !Selects(m.ir) then m
    else if m.shiftAmount == 0 then m.(shiftAmount := 1, tdo := if m.ir == IR_DMI then false else m.tdo)
    else
      var n := m.(shiftAmount := (m.shiftAmount + 1) % 0x100);
      if m.ir == IR_IDCODE then
        n.(tdo := m.idcodeShift % 2 == 1, idcodeShift := ShiftIn(m.idcodeShift, 0x8000_0000, m.tdi))
      else if m.ir == IR_DTMCS then
        n.(tdo := m.dtmcsShift % 2 == 1, dtmcsShift := ShiftIn(m.dtmcsShift, 0x8000_0000, m.tdi))
      else
        n.(tdo := m.dmiShift % 2 == 1, dmiShift := ShiftIn(m.dmiShift, 0x100_0000_0000, m.tdi))
  }

  function ShiftIrEdge(m: Machine): Machine {
    m.(tdo := m.irShift % 2 == 1, irShift := ShiftIn(m.irShift, 0x10, m.tdi))
  }

  function FallingEdge(m: Machine): Machine {
    if m.tap == ShiftDr then ShiftDrEdge(m)
    else if m.tap == ShiftIr then ShiftIrEdge(m)
    else m
  }

  function CaptureDrRegister(m: Machine): Machine {
    if m.ir == IR_IDCODE then m.(idcodeShift := m.idcode, shiftAmount := 0)
    else if m.ir == IR_DTMCS then m.(dtmcsShift := m.dtmcs, shiftAmount := 0)
    else if m.ir == IR_DMI then m.(dmiShift := m.core.dmi, shiftAmount := 0)
    else m
  }

  /** The dtmcs container is never written. */
  function UpdateDrRegister(env: Env, m: Machine): Machine {
    if m.ir == IR_IDCODE then m.(idcode := m.idcodeShift)
    else if m.ir == IR_DMI then m.(core := Transact(env, m.core, m.dmiShift))
    else m
  }

  /** What the state-entry callback does. */
  function OnEntry(env: Env, m: Machine): Machine {
    match m.tap
    case TestLogicReset => m.(ir := IR_IDCODE)
    case CaptureDr => CaptureDrRegister(m)
    case CaptureIr => m.(irShift := m.ir)
    case UpdateDr => UpdateDrRegister(env, m)
    case UpdateIr => m.(ir := m.irShift)
    case _ => m
  }

  function Enter(env: Env, m: Machine, s: TapState): Machine {
    OnEntry(env, m.(tap := s))
  }

  /** Every write with tck = 1 counts as a rising edge, whatever tck was before. */
  function SetPins(env: Env, m: Machine, tck: bool, tms: bool, tdi: bool): Machine {
    var n := m.(tck := tck, tms := tms, tdi := tdi);
    if tck then Enter(env, n, Next(n.tap, tms)) else FallingEdge(n)
  }

  // ---------------------------------------------------------------- command characters

  predicate IsWrite(c: char) {
    '0' <= c <= '7'
  }

  /** The pin levels of a write command, as its octal digit spells them. */
  function Tck(c: char): bool { '4' <= c <= '7' }
  function Tms(c: char): bool { c in "2367" }
  function Tdi(c: char): bool { c in "1357" }

  datatype Outcome = Outcome(machine: Machine, replies: string)

  function BitChar(b: bool): char {
    if b then '1' else '0'
  }

  /** One command character. Blink, SWD and unknown commands do nothing. */
  function Execute(env: Env, m: Machine, c: char): Outcome {
    if IsWrite(c) then Outcome(SetPins(env, m, Tck(c), Tms(c), Tdi(c)), "")
    else if c == 'r' then Outcome(Enter(env, m, TestLogicReset), "")
    else if c == 'R' then Outcome(m, [BitChar(m.tdo)])
    else if c == 'Q' then Outcome(m.(quit := true), "")
    else Outcome(m, "")
  }

  /** A command stream; the server stops reading once it has seen Q. */
  function Run(env: Env, m: Machine, cs: string): Outcome
    decreases |cs|
  {
    if cs == [] || m.quit then Outcome(m, "")
    else
      var first := Execute(env, m, cs[0]);
      var rest := Run(env, first.machine, cs[1..]);
      Outcome(rest.machine, first.replies + rest.replies)
  }

  lemma {:induction false} RunConcat(env: Env, m: Machine, a: string, b: string)
    ensures var first := Run(env, m, a);
            var rest := Run(env, first.machine, b);
            Run(env, m, a + b) == Outcome(rest.machine, first.replies + rest.replies)
    decreases |a|
  {
    if a == [] {
      assert a + b == b;
    } else if !m.quit {
      var n := Execute(env, m, a[0]);
      assert (a + b)[1..] == a[1..] + b;
      RunConcat(env, n.machine, a[1..], b);
      var first := Run(env, n.machine, a[1..]);
      var rest := Run(env, first.machine, b);
      assert n.replies + (first.replies + rest.replies) == (n.replies + first.replies) + rest.replies;
    }
  }

  lemma RunCons(env: Env, m: Machine, c: char, cs: string)
    requires !m.quit
    ensures var first := Execute(env, m, c);
            var rest := Run(env, first.machine, cs);
            Run(env, m, [c] + cs) == Outcome(rest.machine, first.replies + rest.replies)
  {
    assert ([c] + cs)[1..] == cs;
  }
}
