/** The target as the client sees it on the wire: streams of scans in, streams of bits out. */
module WireLaws {
  import opened Words
  import opened TapController
  import opened TapLaws
  import opened Transactions
  import opened DmiLaws
  import opened RegisterLaws
  import opened Target
  import opened StreamLaws
  import opened DelayLine
  import opened ScanLaws

  predicate AreRequests(scans: seq<DWord>) {
    forall i :: 0 <= i < |scans| ==> scans[i] < 0x200_0000_0000
  }

  /** The characters that send a series of DMI requests. */
  function DmiScans(scans: seq<DWord>): string
    decreases |scans|
  {
    if scans == [] then [] else DrScan(ToBits(scans[0], 41)) + DmiScans(scans[1..])
  }

  /** The replies to them: each scan reads the container as the transaction before it left it. */
  function Responses(env: Env, c: Core, scans: seq<DWord>): string
    decreases |scans|
  {
    if scans == [] then []
    else Chars(ToBits(c.dmi, 41)) + Responses(env, Transact(env, c, scans[0]), scans[1..])
  }

  // ---------------------------------------------------------------- the refinement

  lemma OneDmiScan(env: Env, k: Committed, scan: DWord)
    requires k.ir == IR_DMI && scan < 0x200_0000_0000
    ensures AfterScan(env, k, ToBits(scan, 41)) == k.(core := Transact(env, k.core, scan))
    ensures ScanReply(k, ToBits(scan, 41)) == Chars(ToBits(k.core.dmi, 41))
  {
    hide ToBits, FromBits, Chars, Transact, Effective, TdoHistory;
    Weights();
    FromToBits(scan, 41);
    ShortScan(k, ToBits(scan, 41));
    assert (ContainerBits(k) + ToBits(scan, 41))[41..] == ToBits(scan, 41);
    assert (ContainerBits(k) + ToBits(scan, 41))[..41] == ContainerBits(k);
  }

  /** Thousands of pin writes compute exactly the fold of Transact over the requests, and the bits read
      back are the containers before each of them. */
  lemma {:induction false} WireRefinesTransactions(env: Env, m: Machine, scans: seq<DWord>, rest: string)
    returns (o: Machine)
    requires IsIdle(m) && m.ir == IR_DMI && AreRequests(scans)
    ensures IsIdle(o) && Commit(o) == Commit(m).(core := TransactAll(env, m.core, scans))
    ensures Run(env, m, DmiScans(scans) + rest) ==
            Outcome(Run(env, o, rest).machine, Responses(env, m.core, scans) + Run(env, o, rest).replies)
    decreases |scans|
  {
    hide Run, DrScan, Transact, ToBits, IsIdle, Chars;
    if scans == [] {
      o := m;
      assert "" + rest == rest && "" + Run(env, m, rest).replies == Run(env, m, rest).replies;
    } else {
      var more := DmiScans(scans[1..]) + rest;
      assert DmiScans(scans) + rest == DrScan(ToBits(scans[0], 41)) + more;
      var n := DrScanLaw(env, m, ToBits(scans[0], 41), more);
      OneDmiScan(env, Commit(m), scans[0]);
      o := WireRefinesTransactions(env, n, scans[1..], rest);
    }
  }

  lemma {:induction false} ResponsesSnoc(env: Env, c: Core, scans: seq<DWord>, last: DWord)
    ensures Responses(env, c, scans + [last]) ==
            Responses(env, c, scans) + Chars(ToBits(TransactAll(env, c, scans).dmi, 41))
    decreases |scans|
  {
    hide Transact, ToBits, Chars;
    if scans == [] {
      var d := Transact(env, c, last);
      assert [] + [last] == [last] && [last][1..] == [];
      assert Responses(env, d, []) == [];
      assert Chars(ToBits(c.dmi, 41)) + [] == [] + Chars(ToBits(c.dmi, 41));
    } else {
      assert (scans + [last])[1..] == scans[1..] + [last];
      ResponsesSnoc(env, Transact(env, c, scans[0]), scans[1..], last);
    }
  }

  /** A container on the wire: operation first, then data, then address. */
  lemma PacketBits(a: Address7, w: Word, op: Op2)
    ensures ToBits(Packet(a, w, op), 41) == ToBits(op, 2) + ToBits(w, 32) + ToBits(a, 7)
  {
    hide ToBits;
    Weights();
    assert Pow2(2) == 4;
    ToBitsConcat(w, a, 32, 7);
    ToBitsConcat(op, w + 0x1_0000_0000 * a, 2, 39);
  }

  // ---------------------------------------------------------------- attaching

  /** An instruction scan from and to Run-Test/Idle. */
  function IrScan(ir: nat): string {
    PausedIrScan(ir, NoPauses(5))
  }

  function PausedIrScan(ir: nat, pauses: seq<nat>): string
    requires |pauses| == 5
  {
    EnterShiftIr() + BitClocks(ToBits(ir, 5), pauses) + LeaveShift()
  }

  function EnterShiftIr(): string {
    Clock(true) + Clock(true) + Clock(false) + Clock(false) + [Write(false, false, false)]
  }

  predicate IrShiftOk(m: Machine) {
    !m.quit && m.irShift < 0x20 && m.tap == ShiftIr
  }

  lemma RunIrBit(env: Env, m: Machine, b: bool, last: bool, rest: string) returns (k: Machine)
    requires IrShiftOk(m)
    ensures k.tap == (if last then Exit1Ir else ShiftIr) && IrLine(k) == IrLine(m)[1..] + [b] && k.tdo == IrLine(m)[0]
    ensures !k.quit && k.irShift < 0x20 && Commit(k) == Commit(m) && k.dmiShift == m.dmiShift
    ensures Run(env, m, BitClock(b, last) + rest) ==
            Outcome(Run(env, k, rest).machine, [BitChar(IrLine(m)[0])] + Run(env, k, rest).replies)
  {
    hide Run, Write, ShiftIrEdge, ToBits, SetPins, Enter;
    var p := Pinned(m, false, last, b);
    var n := ShiftIrEdge(p);
    var up := [Write(true, last, b)] + rest;
    assert BitClock(b, last) + rest == [Write(false, last, b)] + (['R'] + up);
    EdgeShiftsIr(p);
    IrEdgeKeeps(p);
    RunFalling(env, m, last, b, ['R'] + up);
    RunCons(env, n, 'R', up);
    RunRising(env, n, last, b, rest);
    k := Pinned(n, true, last, b).(tap := if last then Exit1Ir else ShiftIr);
  }

  lemma RunIrStep(env: Env, m: Machine, b: bool, last: bool, pause: nat, rest: string) returns (k: Machine)
    requires IrShiftOk(m)
    ensures k.tap == (if last then Exit1Ir else ShiftIr) && IrLine(k) == IrLine(m)[1..] + [b] && k.tdo == IrLine(m)[0]
    ensures !k.quit && k.irShift < 0x20 && Commit(k) == Commit(m) && k.dmiShift == m.dmiShift
    ensures Run(env, m, BitStep(b, last, pause) + rest) ==
            Outcome(Run(env, k, rest).machine, [BitChar(IrLine(m)[0])] + Run(env, k, rest).replies)
  {
    hide Run, BitClock, PauseClocks, ToBits;
    var pauses := if !last && pause > 0 then PauseClocks(pause) else [];
    assert BitStep(b, last, pause) + rest == BitClock(b, last || pause > 0) + (pauses + rest);
    k := RunIrBit(env, m, b, last || pause > 0, pauses + rest);
    if !last && pause > 0 {
      k := RunPause(env, k, pause, rest);
    } else {
      assert pauses + rest == rest;
    }
  }

  lemma {:induction false} RunIrBits(env: Env, m: Machine, bits: seq<bool>, pauses: seq<nat>, rest: string)
    returns (k: Machine)
    requires IrShiftOk(m) && bits != [] && |pauses| == |bits|
    ensures k.tap == Exit1Ir && IrLine(k) == (IrLine(m) + bits)[|bits|..] && k.tdo == (IrLine(m) + bits)[|bits| - 1]
    ensures !k.quit && k.irShift < 0x20 && Commit(k) == Commit(m) && k.dmiShift == m.dmiShift
    ensures Run(env, m, BitClocks(bits, pauses) + rest) ==
            Outcome(Run(env, k, rest).machine, Chars((IrLine(m) + bits)[..|bits|]) + Run(env, k, rest).replies)
    decreases |bits|
  {
    hide Run, ToBits, BitStep, BitClocks, Chars;
    var more := BitClocks(bits[1..], pauses[1..]);
    BitClocksStep(bits, pauses, rest);
    k := RunIrStep(env, m, bits[0], |bits| == 1, pauses[0], more + rest);
    BitsStep(IrLine(m), bits);
    if |bits| > 1 {
      k := RunIrBits(env, k, bits[1..], pauses[1..], rest);
    }
  }

  lemma BitsStep(line: seq<bool>, bits: seq<bool>)
    requires line != [] && bits != []
    ensures var next := line[1..] + [bits[0]];
            (next + bits[1..])[|bits| - 1..] == (line + bits)[|bits|..] &&
            (|bits| > 1 ==> (next + bits[1..])[|bits| - 2] == (line + bits)[|bits| - 1]) &&
            Chars((line + bits)[..|bits|]) == [BitChar(line[0])] + Chars((next + bits[1..])[..|bits| - 1]) &&
            (|bits| == 1 ==> next == (line + bits)[1..] && Chars((line + bits)[..1]) == [BitChar(line[0])])
  {
    assert (line[1..] + [bits[0]]) + bits[1..] == (line + bits)[1..];
  }

  /** From Run-Test/Idle to Shift-IR; the idle falling edge already shifts. */
  lemma EnterShiftIrLaw(env: Env, m: Machine, rest: string) returns (k: Machine)
    requires IsIdle(m)
    ensures IrShiftOk(k) && Commit(k) == Commit(m) && k.dmiShift == m.dmiShift
    ensures IrLine(k) == ToBits(m.ir, 5)[1..] + [false]
    ensures Run(env, m, EnterShiftIr() + rest) == Run(env, k, rest)
  {
    hide Run, Write, ToBits, CoreOk, ShiftIn;
    var r4 := [Write(false, false, false)] + rest;
    var r3 := Clock(false) + r4;
    var r2 := Clock(false) + r3;
    var r1 := Clock(true) + r2;
    assert EnterShiftIr() + rest == Clock(true) + r1;
    RunClock(env, m, true, r1);
    var a := Pinned(m, true, true, false).(tap := SelectDrScan);
    RunClock(env, a, true, r2);
    var b := a.(tap := SelectIrScan);
    RunClock(env, b, false, r3);
    var c := OnEntry(env, Pinned(b, true, false, false).(tap := CaptureIr));
    RunClock(env, c, false, r4);
    var d := Pinned(c, true, false, false).(tap := ShiftIr);
    RunFalling(env, d, false, false, rest);
    k := ShiftIrEdge(Pinned(d, false, false, false));
    EdgeShiftsIr(Pinned(d, false, false, false));
  }

  lemma LeaveShiftIrLaw(env: Env, m: Machine, rest: string) returns (o: Machine)
    requires !m.quit && m.tap == Exit1Ir
    ensures o.tap == RunTestIdle && !o.quit && o.dmiShift == m.dmiShift && o.tdo == m.tdo
    ensures Commit(o) == Commit(m).(ir := m.irShift)
    ensures Run(env, m, LeaveShift() + rest) == Run(env, o, rest)
  {
    hide Run, Write;
    var r2 := [Write(false, false, false)] + rest;
    assert LeaveShift() + rest == Clock(true) + (Clock(false) + r2);
    RunClock(env, m, true, Clock(false) + r2);
    var a := OnEntry(env, Pinned(m, true, true, false).(tap := UpdateIr));
    RunClock(env, a, false, r2);
    var b := Pinned(a, true, false, false).(tap := RunTestIdle);
    RunFalling(env, b, false, false, rest);
    o := Pinned(b, false, false, false);
  }

  /** What an instruction scan shows: the old instruction, less the bit that the idle edge shifts out. */
  function IrReply(ir: Byte): string {
    Chars(ToBits(ir, 5)[1..] + [false])
  }

  /** An instruction scan loads the five bits it sends, the extra idle edge and any pauses between the bits
      notwithstanding, and changes nothing else that is committed. */
  lemma PausedIrScanLaw(env: Env, m: Machine, ir: nat, pauses: seq<nat>, rest: string) returns (o: Machine)
    requires IsIdle(m) && ir < 0x20 && |pauses| == 5
    ensures IsIdle(o) && Commit(o) == Commit(m).(ir := ir) && !o.tdo
    ensures Run(env, m, PausedIrScan(ir, pauses) + rest) ==
            Outcome(Run(env, o, rest).machine, IrReply(m.ir) + Run(env, o, rest).replies)
  {
    hide Run, ToBits, FromBits, Write, BitClocks, EnterShiftIr, LeaveShift, CoreOk;
    var bits := ToBits(ir, 5);
    var tail := LeaveShift() + rest;
    assert PausedIrScan(ir, pauses) + rest == EnterShiftIr() + (BitClocks(bits, pauses) + tail);
    var a := EnterShiftIrLaw(env, m, BitClocks(bits, pauses) + tail);
    var b := RunIrBits(env, a, bits, pauses, tail);
    assert (IrLine(a) + bits)[..5] == IrLine(a);
    assert (IrLine(a) + bits)[5..] == bits;
    Weights();
    FromToBits(ir, 5);
    FromToBits(b.irShift, 5);
    assert b.irShift == ir;
    o := LeaveShiftIrLaw(env, b, rest);
  }

  /** The scan without pauses. */
  lemma IrScanLaw(env: Env, m: Machine, ir: nat, rest: string) returns (o: Machine)
    requires IsIdle(m) && ir < 0x20
    ensures IsIdle(o) && Commit(o) == Commit(m).(ir := ir) && !o.tdo
    ensures Run(env, m, IrScan(ir) + rest) ==
            Outcome(Run(env, o, rest).machine, IrReply(m.ir) + Run(env, o, rest).replies)
  {
    hide Run, IsIdle, PausedIrScan, IrReply;
    o := PausedIrScanLaw(env, m, ir, NoPauses(5), rest);
  }

  /** The reset command and the clock cycle to Run-Test/Idle. */
  function ResetStream(): string {
    "r" + Clock(false)
  }

  /** A state in which a client can still attach, whatever the TAP is doing. */
  predicate CanAttach(m: Machine) {
    !m.quit && m.dmiShift < 0x200_0000_0000 && CoreOk(m.core)
  }

  lemma ResetToIdle(env: Env, m: Machine, rest: string) returns (o: Machine)
    requires CanAttach(m)
    ensures IsIdle(o) && Commit(o) == Commit(m).(ir := IR_IDCODE) && o.tdo == m.tdo
    ensures Run(env, m, ResetStream() + rest) == Run(env, o, rest)
  {
    hide Run, CoreOk, Clock;
    assert ResetStream() + rest == ['r'] + (Clock(false) + rest);
    RunCons(env, m, 'r', Clock(false) + rest);
    ResetCommand(env, m);
    var a := m.(tap := TestLogicReset, ir := IR_IDCODE);
    RunClock(env, a, false, rest);
    o := Pinned(a, true, false, false).(tap := RunTestIdle);
    assert "" + Run(env, o, rest).replies == Run(env, o, rest).replies;
  }

  /** The client resets the TAP, selects the DMI register and sends requests. */
  function Session(scans: seq<DWord>): string {
    ResetStream() + (IrScan(IR_DMI) + DmiScans(scans))
  }

  /** From any reachable state, in whatever TAP state an earlier client left the target, a session runs
      its requests on the debug module and reads back their responses, after the five bits of the
      instruction scan. */
  lemma SessionFromAnywhere(env: Env, m: Machine, scans: seq<DWord>)
    requires CanAttach(m) && AreRequests(scans)
    ensures var o := Run(env, m, Session(scans));
            o.machine.core == TransactAll(env, m.core, scans) &&
            o.replies == IrReply(IR_IDCODE) + Responses(env, m.core, scans)
  {
    hide Run, CanAttach, IsIdle, IrScan, DmiScans, ResetStream, Transact, IrReply;
    var b := ResetToIdle(env, m, IrScan(IR_DMI) + DmiScans(scans));
    var c := IrScanLaw(env, b, IR_DMI, DmiScans(scans));
    assert DmiScans(scans) + "" == DmiScans(scans);
    var o := WireRefinesTransactions(env, c, scans, "");
    RunNothing(env, o);
    var replies := Responses(env, m.core, scans);
    assert replies + "" == replies;
  }

  lemma PowerOnCanAttach(tap: TapState, tdo: bool, cpu: Cpu)
    ensures CanAttach(PowerOn(tap, tdo, cpu))
  {
    hide CoreOk, InitialCore;
    InitialCoreOk(cpu);
  }

  /** The same from power-on, in whatever TAP state the target wakes up. */
  lemma SessionLaw(env: Env, tap: TapState, tdo: bool, cpu: Cpu, scans: seq<DWord>)
    requires AreRequests(scans)
    ensures var o := Run(env, PowerOn(tap, tdo, cpu), Session(scans));
            o.machine.core == TransactAll(env, InitialCore(cpu), scans) &&
            o.replies == IrReply(IR_IDCODE) + Responses(env, InitialCore(cpu), scans)
  {
    hide Run, CanAttach, TransactAll, Responses, Session, InitialCore, IrReply;
    PowerOnCanAttach(tap, tdo, cpu);
    SessionFromAnywhere(env, PowerOn(tap, tdo, cpu), scans);
  }

  // ---------------------------------------------------------------- dtmcs scans

  /** A dtmcs scan reads version 1 and the true address width of the DMI register (its 41 bits less 34),
      and writes nothing. The invariant MachineOk supplies the value. */
  lemma DtmcsScan(env: Env, k: Committed, bits: seq<bool>)
    requires k.ir == IR_DTMCS && k.dtmcs == DTMCS_VALUE && |bits| >= 32
    ensures AfterScan(env, k, bits) == k
    ensures ScanReply(k, bits)[..32] == Chars(ToBits(DTMCS_VALUE, 32))
    ensures DTMCS_VALUE % 0x10 == 1 && DTMCS_VALUE / 0x10 % 0x40 + 34 == Width(IR_DMI)
  {
    hide ToBits, TdoHistory;
    FirstReplies(IR_DTMCS, ContainerBits(k), bits);
  }

  // ---------------------------------------------------------------- IDCODE scans

  /** A data scan with IDCODE selected, after a TAP reset or not. */
  datatype IdScan = IdScan(reset: bool, bits: seq<bool>)

  predicate AreIdScans(scans: seq<IdScan>) {
    forall i :: 0 <= i < |scans| ==> scans[i].bits != []
  }

  function IdStream(scan: IdScan): string {
    (if scan.reset then ResetStream() else "") + DrScan(scan.bits)
  }

  function IdScans(scans: seq<IdScan>): string
    decreases |scans|
  {
    if scans == [] then [] else IdStream(scans[0]) + IdScans(scans[1..])
  }

  /** The bits of the scans that shift in: all but every 256th of a scan. */
  function ShiftedIn(scans: seq<IdScan>): seq<bool>
    decreases |scans|
  {
    if scans == [] then [] else Effective(1, scans[0].bits) + ShiftedIn(scans[1..])
  }

  /** A line after bits went through it. */
  function Pushed(line: seq<bool>, bits: seq<bool>): (s: seq<bool>)
    ensures |s| == |line|
  {
    (line + bits)[|bits|..]
  }

  lemma PushedTwice(line: seq<bool>, a: seq<bool>, b: seq<bool>)
    ensures Pushed(Pushed(line, a), b) == Pushed(line, a + b)
  {
    assert (line + a)[|a|..] + b == (line + (a + b))[|a|..];
  }

  /** The replies of a 32-bit queue that loops through the client. */
  function IdReplies(line: seq<bool>, scans: seq<IdScan>): string
    requires |line| == 32
    decreases |scans|
  {
    if scans == [] then []
    else
      TdoHistory(IR_IDCODE, false, line, 1, scans[0].bits) +
      IdReplies(Pushed(line, Effective(1, scans[0].bits)), scans[1..])
  }

  lemma IdScanValue(k: Committed, bits: seq<bool>)
    requires k.ir == IR_IDCODE
    ensures ToBits(ScannedIn(k, bits), 32) == Pushed(ToBits(k.idcode, 32), Effective(1, bits))
    ensures ScanReply(k, bits) == TdoHistory(IR_IDCODE, false, ToBits(k.idcode, 32), 1, bits)
  {
    hide ToBits, FromBits, Effective, TdoHistory;
    ToFromBits(Pushed(ContainerBits(k), Effective(1, bits)));
  }

  lemma OneIdScan(env: Env, m: Machine, scan: IdScan, rest: string) returns (o: Machine)
    requires IsIdle(m) && m.ir == IR_IDCODE && scan.bits != []
    ensures IsIdle(o) && Commit(o) == Commit(m).(idcode := o.idcode)
    ensures ToBits(o.idcode, 32) == Pushed(ToBits(m.idcode, 32), Effective(1, scan.bits))
    ensures Run(env, m, IdStream(scan) + rest) ==
            Outcome(Run(env, o, rest).machine,
                    TdoHistory(IR_IDCODE, false, ToBits(m.idcode, 32), 1, scan.bits) + Run(env, o, rest).replies)
  {
    hide Run, ToBits, DrScan, ResetStream, TdoHistory, Effective, Pushed, ScannedIn, ScanReply, CoreOk;
    var n := m;
    if scan.reset {
      assert IdStream(scan) + rest == ResetStream() + (DrScan(scan.bits) + rest);
      n := ResetToIdle(env, m, DrScan(scan.bits) + rest);
    } else {
      assert "" + DrScan(scan.bits) == DrScan(scan.bits);
    }
    o := DrScanLaw(env, n, scan.bits, rest);
    IdScanValue(Commit(n), scan.bits);
  }

  /** IDCODE loops back: each scan answers what the scans before it left in the register, oldest bit
      first, starting with the identification code. A TAP reset in between makes no difference, and no
      IDCODE scan reaches the debug module. */
  lemma {:induction false} IdCodeLoopBack(env: Env, m: Machine, scans: seq<IdScan>) returns (o: Machine)
    requires IsIdle(m) && m.ir == IR_IDCODE && AreIdScans(scans)
    ensures Run(env, m, IdScans(scans)) == Outcome(o, IdReplies(ToBits(m.idcode, 32), scans))
    ensures IsIdle(o) && Commit(o) == Commit(m).(idcode := o.idcode)
    ensures ToBits(o.idcode, 32) == Pushed(ToBits(m.idcode, 32), ShiftedIn(scans))
    decreases |scans|
  {
    hide Run, ToBits, IdStream, TdoHistory, Effective, Pushed, IsIdle;
    var line := ToBits(m.idcode, 32);
    if scans == [] {
      o := m;
      RunNothing(env, m);
      NothingPushed(line);
    } else {
      var k := OneIdScan(env, m, scans[0], IdScans(scans[1..]));
      o := IdCodeLoopBack(env, k, scans[1..]);
      PushedTwice(line, Effective(1, scans[0].bits), ShiftedIn(scans[1..]));
    }
  }

  lemma NothingPushed(line: seq<bool>)
    ensures Pushed(line, []) == line
  {
    assert line + [] == line;
  }

  /** All bits of the scans, in order. */
  function Sent(scans: seq<IdScan>): seq<bool>
    decreases |scans|
  {
    if scans == [] then [] else scans[0].bits + Sent(scans[1..])
  }

  /** While no scan is longer than 255 bits, the scans are one long shift: the replies are the code
      followed by everything sent, delayed by 32. */
  lemma {:induction false} ShortIdScans(line: seq<bool>, scans: seq<IdScan>)
    requires |line| == 32 && forall i :: 0 <= i < |scans| ==> |scans[i].bits| <= 255
    ensures ShiftedIn(scans) == Sent(scans)
    ensures IdReplies(line, scans) == Chars((line + Sent(scans))[..|Sent(scans)|])
    decreases |scans|
  {
    hide TdoHistory, Effective, Chars;
    if scans == [] {
      assert (line + [])[..0] == [];
    } else {
      var bits, more := scans[0].bits, Sent(scans[1..]);
      EffectiveShort(1, bits);
      ShortHistory(IR_IDCODE, line, bits);
      ShortIdScans(Pushed(line, bits), scans[1..]);
      assert (line + (bits + more))[..|bits + more|] ==
             (line + bits)[..|bits|] + (Pushed(line, bits) + more)[..|more|];
      CharsConcat((line + bits)[..|bits|], (Pushed(line, bits) + more)[..|more|]);
    }
  }

  lemma CharsConcat(a: seq<bool>, b: seq<bool>)
    ensures Chars(a + b) == Chars(a) + Chars(b)
  {
  }

  // ---------------------------------------------------------------- when IDCODE scans show the code

  lemma {:induction false} IdRepliesSnoc(line: seq<bool>, scans: seq<IdScan>, last: IdScan)
    requires |line| == 32
    ensures IdReplies(line, scans + [last]) ==
            IdReplies(line, scans) + TdoHistory(IR_IDCODE, false, Pushed(line, ShiftedIn(scans)), 1, last.bits)
    decreases |scans|
  {
    hide TdoHistory, Effective, Pushed;
    if scans == [] {
      NothingPushed(line);
      assert [] + [last] == [last] && [last][1..] == [];
      var reply := TdoHistory(IR_IDCODE, false, line, 1, last.bits);
      assert IdReplies(line, [last]) == reply + [] == [] + reply;
    } else {
      var e := Effective(1, scans[0].bits);
      assert (scans + [last])[1..] == scans[1..] + [last];
      IdRepliesSnoc(Pushed(line, e), scans[1..], last);
      PushedTwice(line, e, ShiftedIn(scans[1..]));
    }
  }

  lemma CharsInjective(a: seq<bool>, b: seq<bool>)
    requires Chars(a) == Chars(b)
    ensures a == b
  {
    hide Chars;
    forall i | 0 <= i < |a|
      ensures a[i] == b[i]
    {
      CharAt(a, i);
      CharAt(b, i);
    }
  }

  /** When a scan after a TAP reset shows the identification code: if and only if the last 32 bits of the
      register's content followed by everything shifted in before are the code. A client that knows
      what it sent can tell before the reset; the reset itself makes no difference. */
  lemma ResetShowsIdCode(env: Env, m: Machine, scans: seq<IdScan>, bits: seq<bool>)
    requires IsIdle(m) && m.ir == IR_IDCODE && AreIdScans(scans) && |bits| >= 32
    ensures var r := Run(env, m, IdScans(scans + [IdScan(true, bits)])).replies;
            |r| >= |bits| &&
            (r[|r| - |bits|..][..32] == Chars(ToBits(IDCODE_VALUE, 32)) <==>
             Pushed(ToBits(m.idcode, 32), ShiftedIn(scans)) == ToBits(IDCODE_VALUE, 32))
  {
    hide Run, ToBits, Chars, TdoHistory, Pushed, ShiftedIn, IdReplies, IsIdle;
    var line := ToBits(m.idcode, 32);
    var queue := Pushed(line, ShiftedIn(scans));
    var o := IdCodeLoopBack(env, m, scans + [IdScan(true, bits)]);
    IdRepliesSnoc(line, scans, IdScan(true, bits));
    FirstReplies(IR_IDCODE, queue, bits);
    if Chars(queue) == Chars(ToBits(IDCODE_VALUE, 32)) {
      CharsInjective(queue, ToBits(IDCODE_VALUE, 32));
    }
  }

  /** A reset does not bring the code back by itself: after 32 zeros the scan behind the reset shows
      them. */
  lemma ResetKeepsScannedIdCode(env: Env, m: Machine)
    requires IsIdle(m) && m.ir == IR_IDCODE
    ensures var zeros := seq(32, i => false);
            Run(env, m, IdScans([IdScan(false, zeros), IdScan(true, zeros)])).replies ==
            Chars(ToBits(m.idcode, 32)) + Chars(zeros)
  {
    hide Run, ToBits, Chars, TdoHistory, Effective, IsIdle;
    var zeros := seq(32, i => false);
    var line := ToBits(m.idcode, 32);
    var scans := [IdScan(false, zeros), IdScan(true, zeros)];
    var o := IdCodeLoopBack(env, m, scans);
    ShortIdScans(line, scans);
    assert scans[1..] == [IdScan(true, zeros)];
    assert Sent(scans[1..]) == zeros + Sent([]);
    assert Sent(scans) == zeros + (zeros + []);
    assert (line + (zeros + (zeros + [])))[..64] == line + zeros;
    CharsConcat(line, zeros);
  }

  // ---------------------------------------------------------------- client programs

  /** What a client can do between two visits to Run-Test/Idle: the pauses are the cycles spent in the
      pause state after each bit. */
  datatype ClientOp =
    | ResetTap
    | Idle(cycles: nat)
    | Select(ir: Byte, irPauses: seq<nat>)
    | Scan(bits: seq<bool>, pauses: seq<nat>)

  /** Any 5-bit instruction, implemented or not, and any scan of at least one bit. */
  predicate IsClientOp(op: ClientOp) {
    match op
    case Select(ir, pauses) => ir < 0x20 && |pauses| == 5
    case Scan(bits, pauses) => bits != [] && |pauses| == |bits|
    case _ => true
  }

  type ValidOp = op: ClientOp | IsClientOp(op) witness ResetTap

  /** What a client can observe between operations: the committed state and TDO. */
  datatype View = View(k: Committed, tdo: bool)

  function ViewOf(m: Machine): View {
    View(Commit(m), m.tdo)
  }

  function OpStream(op: ValidOp): string {
    match op
    case ResetTap => ResetStream()
    case Idle(n) => Clocks(n)
    case Select(ir, pauses) => PausedIrScan(ir, pauses)
    case Scan(bits, pauses) => PausedScan(bits, pauses)
  }

  /** A scan with an instruction that selects no register answers TDO as it stands. */
  function OpReply(v: View, op: ClientOp): string {
    match op
    case ResetTap | Idle(_) => ""
    case Select(_, _) => IrReply(v.k.ir)
    case Scan(bits, _) => if Selects(v.k.ir) then ScanReply(v.k, bits) else Stuck(v.tdo, |bits|)
  }

  /** Only scans of a selected register and instruction scans move TDO, to the last bit they show. */
  function AfterOp(env: Env, v: View, op: ClientOp): View {
    match op
    case ResetTap => v.(k := v.k.(ir := IR_IDCODE))
    case Idle(_) => v
    case Select(ir, _) => View(v.k.(ir := ir), false)
    case Scan(bits, _) =>
      if Selects(v.k.ir) && bits != [] then View(AfterScan(env, v.k, bits), ScanReply(v.k, bits)[|bits| - 1] == '1')
      else v
  }

  function ProgramStream(ops: seq<ValidOp>): string
    decreases |ops|
  {
    if ops == [] then [] else OpStream(ops[0]) + ProgramStream(ops[1..])
  }

  function AfterProgram(env: Env, v: View, ops: seq<ValidOp>): View
    decreases |ops|
  {
    if ops == [] then v else AfterProgram(env, AfterOp(env, v, ops[0]), ops[1..])
  }

  function ProgramReplies(env: Env, v: View, ops: seq<ValidOp>): string
    decreases |ops|
  {
    if ops == [] then [] else OpReply(v, ops[0]) + ProgramReplies(env, AfterOp(env, v, ops[0]), ops[1..])
  }

  lemma ClientOpLaw(env: Env, m: Machine, op: ValidOp, rest: string) returns (o: Machine)
    requires IsIdle(m)
    ensures IsIdle(o) && ViewOf(o) == AfterOp(env, ViewOf(m), op)
    ensures Run(env, m, OpStream(op) + rest) ==
            Outcome(Run(env, o, rest).machine, OpReply(ViewOf(m), op) + Run(env, o, rest).replies)
  {
    hide Run, CoreOk, PausedIrScan, PausedScan, Clocks, ResetStream, AfterScan, ScanReply, IrReply, Stuck;
    match op {
      case ResetTap =>
        o := ResetToIdle(env, m, rest);
        assert "" + Run(env, o, rest).replies == Run(env, o, rest).replies;
      case Idle(n) =>
        o := RunClocks(env, m, n, rest);
        assert "" + Run(env, o, rest).replies == Run(env, o, rest).replies;
      case Select(ir, pauses) =>
        o := PausedIrScanLaw(env, m, ir, pauses, rest);
      case Scan(bits, pauses) =>
        if Selects(m.ir) {
          o := PausedScanLaw(env, m, bits, pauses, rest);
        } else {
          o := UnselectedScanLaw(env, m, bits, pauses, rest);
        }
    }
  }

  /** Any program of TAP resets, idle clocks, instruction scans of any instruction and data scans of any
      length, with any pauses, in any order, is on the pins the fold of its operations over the committed
      state and TDO, with exactly their replies. */
  lemma {:induction false} ProgramLaw(env: Env, m: Machine, ops: seq<ValidOp>) returns (o: Machine)
    requires IsIdle(m)
    ensures IsIdle(o) && ViewOf(o) == AfterProgram(env, ViewOf(m), ops)
    ensures Run(env, m, ProgramStream(ops)) == Outcome(o, ProgramReplies(env, ViewOf(m), ops))
    decreases |ops|
  {
    hide Run, IsIdle, OpStream, OpReply, AfterOp;
    if ops == [] {
      o := m;
      RunNothing(env, m);
    } else {
      var n := ClientOpLaw(env, m, ops[0], ProgramStream(ops[1..]));
      o := ProgramLaw(env, n, ops[1..]);
    }
  }

  /** A program behind a TAP reset, from any reachable state. */
  lemma ProgramFromAnywhere(env: Env, m: Machine, ops: seq<ValidOp>) returns (o: Machine)
    requires CanAttach(m)
    ensures var start := View(Commit(m).(ir := IR_IDCODE), m.tdo);
            IsIdle(o) && ViewOf(o) == AfterProgram(env, start, ops) &&
            Run(env, m, ResetStream() + ProgramStream(ops)) == Outcome(o, ProgramReplies(env, start, ops))
  {
    hide Run, IsIdle, CanAttach, ResetStream, ProgramStream, AfterProgram, ProgramReplies;
    var n := ResetToIdle(env, m, ProgramStream(ops));
    o := ProgramLaw(env, n, ops);
  }

  /** A program behind a TAP reset, from power-on in whatever TAP state the target wakes up. */
  lemma ProgramFromPowerOn(env: Env, tap: TapState, tdo: bool, cpu: Cpu, ops: seq<ValidOp>) returns (o: Machine)
    ensures var start := View(Committed(IR_IDCODE, IDCODE_VALUE, DTMCS_VALUE, InitialCore(cpu)), tdo);
            IsIdle(o) && ViewOf(o) == AfterProgram(env, start, ops) &&
            Run(env, PowerOn(tap, tdo, cpu), ResetStream() + ProgramStream(ops)) ==
            Outcome(o, ProgramReplies(env, start, ops))
  {
    hide Run, IsIdle, CanAttach, ResetStream, ProgramStream, AfterProgram, ProgramReplies, InitialCore;
    PowerOnCanAttach(tap, tdo, cpu);
    o := ProgramFromAnywhere(env, PowerOn(tap, tdo, cpu), ops);
  }
}
