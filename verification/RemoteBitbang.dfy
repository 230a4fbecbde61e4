/** The program's own objects: the TAP state machine with its state-entry callback, the hart, and
    the remote-bitbang server that shifts, captures and updates its registers in place. Every method
    is proved against the functions of Target.dfy and Transactions.dfy. */
module RemoteBitbangServer {
  import opened Words
  import opened TapController
  import opened Transactions
  import opened Target

  class HartCpu {
    var reg: Registers
    var pc: Word
    var segments: Segments

    constructor (reg: Registers, pc: Word, segments: Segments)
      ensures Abs() == Cpu(reg, pc, segments)
    {
      this.reg, this.pc, this.segments := reg, pc, segments;
    }

    function Abs(): Cpu
      reads this
    {
      Cpu(reg, pc, segments)
    }

    /** cpu_step is not part of this model; env.step stands for whatever it does. */
    method Step(env: Env)
      modifies this
      ensures Abs() == env.step(old(Abs()))
    {
      var next := env.step(Abs());
      reg, pc, segments := next.reg, next.pc, next.segments;
    }
  }

  class TapStateMachine {
    var state: TapState
    var callback: RemoteBitbang?

    constructor (state: TapState)
      ensures this.state == state && callback == null
    {
      this.state, callback := state, null;
    }

    method Reset()
      requires callback != null && callback.tsm == this && callback.Valid()
      modifies this, callback, callback.abstractData, callback.cpu
      ensures callback == old(callback) && callback.Valid()
      ensures callback.Abs() == Enter(callback.env, old(callback.Abs()), TestLogicReset)
    {
      ForceIntoState(TestLogicReset);
    }

    method ForceIntoState(newState: TapState)
      requires callback != null && callback.tsm == this && callback.Valid()
      modifies this, callback, callback.abstractData, callback.cpu
      ensures callback == old(callback) && callback.Valid()
      ensures callback.Abs() == Enter(callback.env, old(callback.Abs()), newState)
    {
      hide OnEntry;
      state := newState;
      callback.StateEntered(state);
    }

    method Advance(input: bool)
      modifies `state
      ensures state == Next(old(state), input)
    {
      match state {
        case TestLogicReset => state := if input then TestLogicReset else RunTestIdle;
        case RunTestIdle => state := if input then SelectDrScan else RunTestIdle;
        case SelectDrScan => state := if input then SelectIrScan else CaptureDr;
        case SelectIrScan => state := if input then TestLogicReset else CaptureIr;
        case CaptureDr => state := if input then Exit1Dr else ShiftDr;
        case CaptureIr => state := if input then Exit1Ir else ShiftIr;
        case ShiftDr => state := if input then Exit1Dr else ShiftDr;
        case ShiftIr => state := if input then Exit1Ir else ShiftIr;
        case Exit1Dr => state := if input then UpdateDr else PauseDr;
        case Exit1Ir => state := if input then UpdateIr else PauseIr;
        case PauseDr => state := if input then Exit2Dr else PauseDr;
        case PauseIr => state := if input then Exit2Ir else PauseIr;
        case Exit2Dr => state := if input then UpdateDr else ShiftDr;
        case Exit2Ir => state := if input then UpdateIr else ShiftIr;
        case UpdateDr => state := if input then SelectDrScan else RunTestIdle;
        case UpdateIr => state := if input then SelectDrScan else RunTestIdle;
      }
    }

    method Transition(input: bool, rising: bool)
      requires callback != null && callback.tsm == this && callback.Valid()
      modifies this, callback, callback.abstractData, callback.cpu
      ensures callback == old(callback) && callback.Valid()
      ensures callback.Abs() ==
              Enter(callback.env, old(callback.Abs()), if rising then Next(old(state), input) else old(state))
    {
      hide OnEntry, Next;
      if !rising {
        callback.StateEntered(state);
        return;
      }
      Advance(input);
      callback.StateEntered(state);
    }
  }

  class RemoteBitbang {
    const env: Env
    const tsm: TapStateMachine
    const cpu: HartCpu

    var tck: bool
    var tms: bool
    var tdi: bool
    var tdo: bool
    var quit: bool

    var instructionContainerRegister: Byte
    var instructionShiftRegister: Byte
    var idCodeContainerRegister: Word
    var idCodeShiftRegister: Word
    var dtmcsContainerRegister: Word
    var dtmcsShiftRegister: Word
    var dmiContainerRegister: DWord
    var dmiShiftRegister: DWord
    var abstractcsContainerRegister: Word
    var shiftAmount: Byte

    // the fourteen dmcontrol fields, and the five abstractcs fields
    var dmcontrol: DmControl
    var abstractcs: AbstractCs

    const abstractData: array<DWord>
    var arg1: DWord
    var dpc: Word

    predicate Valid()
      reads tsm`callback, abstractData
    {
      tsm.callback == this && DataValid()
    }

    predicate DataValid()
      reads abstractData
    {
      abstractData.Length == 12 &&
      forall i :: 0 <= i < 12 && i != 1 ==> abstractData[i] < 0x1_0000_0000
    }

    function CoreAbs(): Core
      requires DataValid()
      reads `dmiContainerRegister, `dmcontrol, `abstractcs, `abstractcsContainerRegister, `arg1, `dpc
      reads abstractData, cpu
    {
      Core(dmiContainerRegister,
           DebugModule(dmcontrol, abstractcs, abstractcsContainerRegister, abstractData[..], arg1, dpc),
           cpu.Abs())
    }

    function Abs(): Machine
      requires Valid()
      reads this, tsm, abstractData, cpu
    {
      Machine(tck, tms, tdi, tdo, quit, tsm.state, instructionContainerRegister, instructionShiftRegister,
              idCodeContainerRegister, idCodeShiftRegister, dtmcsContainerRegister, dtmcsShiftRegister,
              dmiShiftRegister, shiftAmount, CoreAbs())
    }

    constructor (env: Env, cpu: HartCpu, unsetState: TapState, unsetTdo: bool)
      ensures Valid() && fresh(tsm) && fresh(abstractData)
      ensures this.env == env && this.cpu == cpu
      ensures Abs() == PowerOn(unsetState, unsetTdo, cpu.Abs())
    {
      this.env, this.cpu := env, cpu;
      tsm := new TapStateMachine(unsetState);
      tdo := unsetTdo;
      instructionContainerRegister, instructionShiftRegister := IR_IDCODE, 0;
      idCodeContainerRegister, idCodeShiftRegister := 0x2000_0913, 0;
      dtmcsShiftRegister, dmiShiftRegister := 0, 0;
      abstractcsContainerRegister, shiftAmount := 0, 0;
      dmcontrol, abstractcs := DMCONTROL_INITIAL, ABSTRACTCS_INITIAL;
      abstractData := new DWord[12](i => 0);
      arg1, dpc := 0, 0x4000_0000;
      dtmcsContainerRegister := InitDtmcs();
      dmiContainerRegister := InitDmi();
      tck, tms, tdi, quit := true, true, true, false;
      new;
      tsm.callback := this;
      assert abstractData[..] == seq(12, i => 0);
    }

    static function InitDtmcs(): Word {
      var errinfo, dtmhardreset, dmireset, idle, dmistat, abits, version := 0, 0, 0, 0, 0, 7, 1;
      errinfo * 0x4_0000 + dtmhardreset * 0x2_0000 + dmireset * 0x1_0000 + idle * 0x1000 + dmistat * 0x400 +
      abits * 0x10 + version
    }

    static function InitDmi(): DWord {
      var address, data, op := 0x10, 1, 0;
      Packet(address, data, op)
    }

    method ResetPins()
      requires Valid()
      modifies this, tsm, abstractData, cpu
      ensures Valid()
      ensures Abs() == Enter(env, old(Abs()), TestLogicReset)
    {
      tsm.Reset();
    }

    method WritePins(newTck: bool, newTms: bool, newTdi: bool)
      requires Valid()
      modifies this, tsm, abstractData, cpu
      ensures Valid()
      ensures Abs() == SetPins(env, old(Abs()), newTck, newTms, newTdi)
    {
      hide ShiftIn, ShiftDrEdge, Enter;
      tck, tms, tdi := newTck, newTms, newTdi;
      if newTck {
        tsm.Transition(newTms, newTck);
      } else {
        ShiftOnFallingEdge();
      }
    }

    method ShiftOnFallingEdge()
      requires Valid()
      modifies this
      ensures Valid()
      ensures Abs() == FallingEdge(old(Abs()))
    {
      hide ShiftIn, ShiftDrEdge;
      match tsm.state {
        case ShiftDr => ShiftDataRegister();
        case ShiftIr =>
          tdo := instructionShiftRegister % 2 == 1;
          instructionShiftRegister := ShiftIn(instructionShiftRegister, 0x10, tdi);
        case _ =>
      }
    }

    method ShiftDataRegister()
      requires Valid()
      modifies this`tdo, this`shiftAmount, this`idCodeShiftRegister, this`dtmcsShiftRegister, this`dmiShiftRegister
      ensures Abs() == ShiftDrEdge(old(Abs()))
    {
      if instructionContainerRegister == IR_IDCODE {
        ShiftIdCode();
      } else if instructionContainerRegister == IR_DTMCS {
        ShiftDtmcs();
      } else if instructionContainerRegister == IR_DMI {
        ShiftDmi();
      }
    }

    method ShiftIdCode()
      requires Valid() && instructionContainerRegister == IR_IDCODE
      modifies this`tdo, this`shiftAmount, this`idCodeShiftRegister
      ensures Abs() == ShiftDrEdge(old(Abs()))
    {
      hide ShiftIn, CoreAbs;
      if shiftAmount >= 1 {
        tdo := idCodeShiftRegister % 2 == 1;
        idCodeShiftRegister := ShiftIn(idCodeShiftRegister, 0x8000_0000, tdi);
      }
      shiftAmount := (shiftAmount + 1) % 0x100;
    }

    method ShiftDtmcs()
      requires Valid() && instructionContainerRegister == IR_DTMCS
      modifies this`tdo, this`shiftAmount, this`dtmcsShiftRegister
      ensures Abs() == ShiftDrEdge(old(Abs()))
    {
      hide ShiftIn, CoreAbs;
      if shiftAmount >= 1 {
        tdo := dtmcsShiftRegister % 2 == 1;
        dtmcsShiftRegister := ShiftIn(dtmcsShiftRegister, 0x8000_0000, tdi);
      }
      shiftAmount := (shiftAmount + 1) % 0x100;
    }

    method ShiftDmi()
      requires Valid() && instructionContainerRegister == IR_DMI
      modifies this`tdo, this`shiftAmount, this`dmiShiftRegister
      ensures Abs() == ShiftDrEdge(old(Abs()))
    {
      hide ShiftIn, CoreAbs;
      tdo := false;
      if shiftAmount >= 1 {
        tdo := dmiShiftRegister % 2 == 1;
        dmiShiftRegister := ShiftIn(dmiShiftRegister, 0x100_0000_0000, tdi);
      }
      shiftAmount := (shiftAmount + 1) % 0x100;
    }

    /** The callback of the TAP state machine. */
    method StateEntered(newState: TapState)
      requires Valid() && newState == tsm.state
      modifies this, abstractData, cpu
      ensures Valid()
      ensures Abs() == OnEntry(env, old(Abs()))
    {
      hide CaptureDrRegister, UpdateDrRegister;
      match newState {
        case TestLogicReset =>
          instructionContainerRegister := IR_IDCODE;
        case CaptureDr => CaptureDataRegister();
        case CaptureIr => instructionShiftRegister := instructionContainerRegister;
        case UpdateDr => UpdateDataRegister();
        case UpdateIr => instructionContainerRegister := instructionShiftRegister;
        case _ =>
      }
    }

    method CaptureDataRegister()
      requires Valid()
      modifies this
      ensures Valid()
      ensures Abs() == CaptureDrRegister(old(Abs()))
    {
      if instructionContainerRegister == IR_IDCODE {
        idCodeShiftRegister := idCodeContainerRegister;
        shiftAmount := 0;
      } else if instructionContainerRegister == IR_DTMCS {
        dtmcsShiftRegister := dtmcsContainerRegister;
        shiftAmount := 0;
      } else if instructionContainerRegister == IR_DMI {
        dmiShiftRegister := dmiContainerRegister;
        shiftAmount := 0;
      }
    }

    method UpdateDataRegister()
      requires Valid()
      modifies this, abstractData, cpu
      ensures Valid()
      ensures Abs() == UpdateDrRegister(env, old(Abs()))
    {
      hide Transact;
      if instructionContainerRegister == IR_IDCODE {
        idCodeContainerRegister := idCodeShiftRegister;
      } else if instructionContainerRegister == IR_DMI {
        UpdateDmi();
      }
    }

    // -------------------------------------------------------------- Update-DR of the DMI register

    method UpdateDmi()
      requires DataValid()
      modifies this, abstractData, cpu
      ensures DataValid()
      ensures CoreAbs() == Transact(env, old(CoreAbs()), old(dmiShiftRegister))
      ensures TapSideUnchanged()
    {
      hide Address, Data, Op, Packet, ProcessData, ProcessDmControl, ProcessAbstractCs, ProcessCommand;
      if dmiShiftRegister != 0 {
        dmiContainerRegister := dmiShiftRegister;
      }
      var dmiAddress := Address(dmiContainerRegister);
      var dmiData := Data(dmiContainerRegister);
      var dmiOp := Op(dmiContainerRegister);
      if dmiAddress >= 0x04 && dmiAddress <= 0x0f {
        DataRegisterAccessed(dmiAddress, dmiData, dmiOp);
      } else if dmiAddress == 0x10 {
        DmControlAccessed(dmiAddress, dmiData, dmiOp);
      } else if dmiAddress == 0x11 {
        DmStatusAccessed(dmiAddress);
      } else if dmiAddress == 0x12 {
        if dmiOp == 0x01 {
          dmiContainerRegister := Packet(dmiAddress, 0, 0);
        }
      } else if dmiAddress == 0x16 {
        AbstractCsAccessed(dmiAddress, dmiOp);
      } else if dmiAddress == 0x17 {
        CommandAccessed(dmiData, dmiOp);
      }
    }

    method DataRegisterAccessed(dmiAddress: Address7, dmiData: Word, dmiOp: Op2)
      requires DataValid() && IsData(dmiAddress)
      modifies `dmiContainerRegister, abstractData
      ensures DataValid()
      ensures CoreAbs() == ProcessData(old(CoreAbs()), dmiAddress, dmiData, dmiOp)
    {
      hide Packet;
      var idx := dmiAddress - 0x04;
      if dmiOp == 0x01 {
        dmiContainerRegister := Packet(dmiAddress, abstractData[idx] % 0x1_0000_0000, 0);
      } else if dmiOp == 0x02 {
        SetData(idx, dmiData);
      }
    }

    method DmControlAccessed(dmiAddress: Address7, dmiData: Word, dmiOp: Op2)
      requires DataValid() && dmiAddress == DMCONTROL
      modifies this, cpu
      ensures DataValid()
      ensures CoreAbs() == ProcessDmControl(env, old(CoreAbs()), dmiData, dmiOp)
      ensures TapSideUnchanged()
    {
      hide Packet, PackDmControl, WriteDmControl;
      if dmiOp == 0x01 {
        dmiContainerRegister := Packet(dmiAddress, PackDmControl(dmcontrol), 0);
      } else if dmiOp == 0x02 {
        DmControlWritten(dmiAddress, dmiData);
      }
    }

    method AbstractCsAccessed(dmiAddress: Address7, dmiOp: Op2)
      requires DataValid() && dmiAddress == ABSTRACTCS
      modifies `dmiContainerRegister, `abstractcsContainerRegister
      ensures CoreAbs() == ProcessAbstractCs(old(CoreAbs()), dmiOp)
    {
      hide Packet, PackAbstractCs;
      if dmiOp == 0x01 {
        dmiContainerRegister := Packet(dmiAddress, PackAbstractCs(abstractcs), 0);
      } else if dmiOp == 0x02 {
        abstractcsContainerRegister := PackAbstractCs(abstractcs);
      }
    }

    method CommandAccessed(dmiData: Word, dmiOp: Op2)
      requires DataValid()
      modifies `abstractcs, `arg1, abstractData, cpu
      ensures DataValid()
      ensures CoreAbs() == ProcessCommand(env, old(CoreAbs()), dmiData, dmiOp)
    {
      hide RegNo, Control, Command;
      if dmiOp == 0x01 {
        if RegNo(Control(dmiData)) == 0x301 {
          SetData(0, MISA);
        }
      } else if dmiOp == 0x02 {
        CommandWritten(dmiData);
      }
    }

    /** The fields that no DMI transaction touches. */
    twostate predicate TapSideUnchanged()
      reads this
    {
      unchanged(`tck) && unchanged(`tms) && unchanged(`tdi) && unchanged(`tdo) && unchanged(`quit) &&
      unchanged(`instructionContainerRegister) && unchanged(`instructionShiftRegister) &&
      unchanged(`idCodeContainerRegister) && unchanged(`idCodeShiftRegister) &&
      unchanged(`dtmcsContainerRegister) && unchanged(`dtmcsShiftRegister) &&
      unchanged(`dmiShiftRegister) && unchanged(`shiftAmount)
    }

    method SetData(i: nat, v: DWord)
      requires DataValid() && i < 12 && (i != 1 ==> v < 0x1_0000_0000)
      modifies abstractData
      ensures DataValid()
      ensures CoreAbs() == WithData(old(CoreAbs()), i, v)
    {
      abstractData[i] := v;
      assert abstractData[..] == old(abstractData[..])[i := v];
    }

    method DmControlWritten(dmiAddress: Address7, dmiData: Word)
      requires DataValid() && dmiAddress == DMCONTROL
      modifies this, cpu
      ensures DataValid()
      ensures CoreAbs() == WriteDmControl(env, old(CoreAbs()), dmiData)
      ensures TapSideUnchanged()
    {
      hide UnpackDmControl, Acknowledge;
      dmcontrol := UnpackDmControl(dmiData);
      if dmcontrol.resumereq == 1 {
        cpu.Step(env);
        dpc := cpu.pc;
      }
      AnswerDmControl(dmiAddress);
    }

    method AnswerDmControl(dmiAddress: Address7)
      requires DataValid() && dmiAddress == DMCONTROL
      modifies `dmcontrol, `dmiContainerRegister
      ensures CoreAbs() == Acknowledge(old(CoreAbs()))
    {
      hide PackDmControl, Packet;
      if dmcontrol.hasel == 0 && dmcontrol.dmactive == 1 {
        dmcontrol := dmcontrol.(dmactive := 1);
        dmiContainerRegister := Packet(dmiAddress, PackDmControl(dmcontrol), 0);
      } else if dmcontrol.hasel == 1 {
        dmcontrol := dmcontrol.(dmactive := 1);
        dmcontrol := dmcontrol.(hartsello := 0);
        dmcontrol := dmcontrol.(hartselhi := 0);
        dmiContainerRegister := Packet(dmiAddress, PackDmControl(dmcontrol), 0);
      }
    }

    method DmStatusAccessed(dmiAddress: Address7)
      requires DataValid() && dmiAddress == DMSTATUS
      modifies `dmiContainerRegister
      ensures CoreAbs() == Respond(old(CoreAbs()), DMSTATUS, DMSTATUS_VALUE)
    {
      var ndmresetpending, stickyunavail, impebreak, allhavereset, anyhavereset := 0, 0, 0, 0, 0;
      var allresumeack, anyresumeack, allnonexistent, anynonexistent := 1, 0, 0, 0;
      var allunavail, anyunavail, allrunning, anyrunning, allhalted, anyhalted := 0, 0, 0, 0, 1, 0;
      var authenticated, authbusy, hasresethaltreq, confstrptrvalid, version := 1, 0, 0, 0, 3;
      var debugModuleStatus :=
        ndmresetpending * 0x100_0000 + stickyunavail * 0x80_0000 + impebreak * 0x40_0000 +
        allhavereset * 0x8_0000 + anyhavereset * 0x4_0000 + allresumeack * 0x2_0000 + anyresumeack * 0x1_0000 +
        allnonexistent * 0x8000 + anynonexistent * 0x4000 + allunavail * 0x2000 + anyunavail * 0x1000 +
        allrunning * 0x800 + anyrunning * 0x400 + allhalted * 0x200 + anyhalted * 0x100 +
        authenticated * 0x80 + authbusy * 0x40 + hasresethaltreq * 0x20 + confstrptrvalid * 0x10 + version;
      dmiContainerRegister := Packet(dmiAddress, debugModuleStatus, 0);
    }

    method CommandWritten(dmiData: Word)
      requires DataValid()
      modifies `abstractcs, `arg1, abstractData, cpu
      ensures DataValid()
      ensures CoreAbs() == Command(env, old(CoreAbs()), dmiData)
    {
      hide AccessRegister, AccessMemory, CmdType, Control;
      var cmdtype, control := CmdType(dmiData), Control(dmiData);
      abstractcs := abstractcs.(cmderr := 0);
      if cmdtype == 0x00 {
        AccessRegisterCommand(control);
      } else if cmdtype == 0x02 {
        AccessMemoryCommand(dmiData);
      }
    }

    method AccessRegisterCommand(control: Word)
      requires DataValid()
      modifies `abstractcs, abstractData
      ensures DataValid()
      ensures CoreAbs() == AccessRegister(old(CoreAbs()), control)
    {
      hide RegNo, IsCommandWrite, AarSize;
      var regno, isWrite, aarsize := RegNo(control), IsCommandWrite(control), AarSize(control);
      if aarsize == 2 {
      } else if aarsize == 3 {
        abstractcs := abstractcs.(cmderr := 0x02);
      } else if aarsize == 4 {
        abstractcs := abstractcs.(cmderr := 0x02);
      }
      var regnoWithoutOffset := GprOffset(regno);
      if regnoWithoutOffset <= 31 {
        if !isWrite {
          SetData(0, cpu.reg[regnoWithoutOffset]);
        }
      } else if regno == 0x300 {
      } else if regno == 0x301 {
        if !isWrite {
          SetData(0, 0x4000_0128);
        }
      } else if regno == 0x07b0 {
      } else if regno == 0x07b1 {
        if !isWrite {
          SetData(0, dpc);
        }
      }
    }

    method AccessMemoryCommand(command: Word)
      requires DataValid()
      modifies `arg1, abstractData, cpu
      ensures DataValid()
      ensures CoreAbs() == AccessMemory(env, old(CoreAbs()), command)
    {
      hide FetchWord, AddressIncrement;
      var dmiData: DWord := command;
      var aamsize := dmiData / 0x10_0000 % 8;
      var aampostincrement := dmiData / 0x8_0000 % 2;
      var isWrite := dmiData / 0x1_0000 % 2;
      if aamsize == 2 {
        arg1 := abstractData[1];
      } else if aamsize == 3 {
        arg1 := abstractData[2] * 0x1_0000_0000 + abstractData[3];
      }
      if isWrite == 0 {
        ReadMemory();
      }
      if aampostincrement == 1 {
        dmiData := (arg1 + AddressIncrement(env, command)) % 0x1_0000_0000_0000_0000;
      }
      SetData(1, dmiData);
    }

    /** Loads the word at arg1 into data0, creating its segment if needed. */
    method ReadMemory()
      requires DataValid()
      modifies abstractData, cpu`segments
      ensures DataValid()
      ensures CoreAbs() == FetchWord(env, old(CoreAbs()), arg1)
    {
      var segmentAddress := SegmentKey(arg1);
      var instrAddress := arg1 % 0x1_0000;
      if segmentAddress !in cpu.segments {
        cpu.segments := cpu.segments[segmentAddress := env.alloc(cpu.segments, segmentAddress)];
      }
      SetData(0, cpu.segments[segmentAddress][instrAddress / 4]);
    }

    // -------------------------------------------------------------- the command loop

    method ExecuteCommand(command: char) returns (reply: string)
      requires Valid()
      modifies this, tsm, abstractData, cpu
      ensures Valid()
      ensures Outcome(Abs(), reply) == Execute(env, old(Abs()), command)
    {
      hide SetPins, Enter, CoreAbs;
      reply := "";
      match command {
        case 'B' =>
        case 'b' =>
        case 'r' => ResetPins();
        case '0' => WritePins(false, false, false);
        case '1' => WritePins(false, false, true);
        case '2' => WritePins(false, true, false);
        case '3' => WritePins(false, true, true);
        case '4' => WritePins(true, false, false);
        case '5' => WritePins(true, false, true);
        case '6' => WritePins(true, true, false);
        case '7' => WritePins(true, true, true);
        case 'R' => reply := if tdo then "1" else "0";
        case 'Q' => quit := true;
        case _ =>
      }
    }

    /** The main loop over the characters a client sends. */
    method Serve(commands: string) returns (replies: string)
      requires Valid()
      modifies this, tsm, abstractData, cpu
      ensures Valid()
      ensures Outcome(Abs(), replies) == Run(env, old(Abs()), commands)
    {
      hide Execute;
      replies := "";
      var i := 0;
      ghost var goal := Run(env, Abs(), commands);
      while i < |commands| && !quit
        invariant 0 <= i <= |commands| && Valid()
        invariant var rest := Run(env, Abs(), commands[i..]);
                  goal == Outcome(rest.machine, replies + rest.replies)
      {
        assert commands[i..][1..] == commands[i + 1..];
        label before:
        ghost var rest := Run(env, Abs(), commands[i..]);
        var reply := ExecuteCommand(commands[i]);
        ghost var after := Run(env, Abs(), commands[i + 1..]);
        assert rest == Outcome(after.machine, reply + after.replies);
        assert replies + (reply + after.replies) == (replies + reply) + after.replies;
        replies := replies + reply;
        i := i + 1;
      }
      assert replies + "" == replies;
    }
  }
}
