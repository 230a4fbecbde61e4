/** What a client sends and receives, character by character: the streams, the identification codes, and
    the answers to whole series of requests as the digits that arrive. */
module SpelledLaws {
  import opened Words
  import opened TapController
  import opened Transactions
  import opened DmiLaws
  import opened DmControlFields
  import opened RegisterLaws
  import opened RequestLaws
  import opened Target
  import opened StreamLaws
  import opened DelayLine
  import opened ScanLaws
  import opened WireLaws

  // ---------------------------------------------------------------- numbers as digits

  /** The w low bits of x as digits, least significant first. */
  function Spelled(x: nat, w: nat): (s: string)
    ensures |s| == w
  {
    seq(w, i requires 0 <= i < w => if x / Pow2(i) % 2 == 1 then '1' else '0')
  }

  lemma {:induction false} BitAt(x: nat, w: nat, i: nat)
    requires i < w
    ensures ToBits(x, w)[i] == (x / Pow2(i) % 2 == 1)
  {
    if i > 0 {
      BitAt(x / 2, w - 1, i - 1);
      DivDiv(x, 2, Pow2(i - 1));
    }
  }

  lemma CharsSpelled(x: nat, w: nat)
    ensures Chars(ToBits(x, w)) == Spelled(x, w)
  {
    hide ToBits, Pow2;
    forall i | 0 <= i < w
      ensures Chars(ToBits(x, w))[i] == Spelled(x, w)[i]
    {
      CharAt(ToBits(x, w), i);
      BitAt(x, w, i);
    }
  }

  /** A container as it arrives: operation, data, address. */
  function Frame(a: Address7, w: Word, op: Op2): (s: string)
    ensures |s| == 41
  {
    Spelled(op, 2) + Spelled(w, 32) + Spelled(a, 7)
  }

  lemma FrameChars(a: Address7, w: Word, op: Op2)
    ensures Chars(ToBits(Packet(a, w, op), 41)) == Frame(a, w, op)
  {
    hide ToBits, Packet, Chars, Spelled;
    PacketBits(a, w, op);
    CharsConcat(ToBits(op, 2) + ToBits(w, 32), ToBits(a, 7));
    CharsConcat(ToBits(op, 2), ToBits(w, 32));
    CharsSpelled(op, 2);
    CharsSpelled(w, 32);
    CharsSpelled(a, 7);
  }

  // ---------------------------------------------------------------- answers on the wire

  /** The last response of a request series is the container that the requests before its last one left,
      whatever the last one is. */
  lemma LastResponse(env: Env, c: Core, scans: seq<DWord>, last: DWord, a: Address7, w: Word, op: Op2)
    requires TransactAll(env, c, scans).dmi == Packet(a, w, op)
    ensures var r := Responses(env, c, scans + [last]);
            |r| >= 41 && r[|r| - 41..] == Frame(a, w, op)
  {
    hide ToBits, Packet, Chars, Transact, Responses, TransactAll, Frame;
    ResponsesSnoc(env, c, scans, last);
    FrameChars(a, w, op);
  }

  /** On the wire: the last 41 replies spell that container. */
  lemma LastReply(env: Env, m: Machine, scans: seq<DWord>, last: DWord, a: Address7, w: Word, op: Op2)
    requires IsIdle(m) && m.ir == IR_DMI && AreRequests(scans) && last < 0x200_0000_0000
    requires TransactAll(env, m.core, scans).dmi == Packet(a, w, op)
    ensures var r := Run(env, m, DmiScans(scans + [last])).replies;
            |r| >= 41 && r[|r| - 41..] == Frame(a, w, op)
  {
    hide Run, IsIdle, DmiScans, Packet, Transact, Responses, TransactAll, Frame;
    var o := WireRefinesTransactions(env, m, scans + [last], "");
    assert DmiScans(scans + [last]) + "" == DmiScans(scans + [last]);
    RunNothing(env, o);
    LastResponse(env, m.core, scans, last, a, w, op);
  }

  /** Write data_i, send anything that does not store into it, read data_i: the next scan shows operation 0,
      the written word and the address. */
  lemma DataOnWire(env: Env, m: Machine, i: nat, w: Word, scans: seq<DWord>, last: DWord)
    requires IsIdle(m) && m.ir == IR_DMI && AreRequests(scans) && last < 0x200_0000_0000 && i < 12
    requires forall k :: 0 <= k < |scans| ==> !Stores(scans[k], i)
    ensures var r := Run(env, m, DmiScans([Packet(4 + i, w, 2)] + scans + [Packet(4 + i, 0, 1)] + [last])).replies;
            |r| >= 41 && r[|r| - 41..] == Frame(4 + i, w, 0)
  {
    hide Run, IsIdle, DmiScans, Packet, Transact, TransactAll, Stores, Frame;
    PacketFields(4 + i, w, 2);
    PacketFields(4 + i, 0, 1);
    DataReadBack(env, m.core, i, w, scans);
    LastReply(env, m, [Packet(4 + i, w, 2)] + scans + [Packet(4 + i, 0, 1)], last, 4 + i, w, 0);
  }

  /** An Access Register read, then a read of data0: the next scan shows the register. Until a resume
      request, a hart register shows the value it had at the start. */
  lemma RegisterOnWire(env: Env, m: Machine, scans: seq<DWord>, f: CommandFields, last: DWord)
    requires IsIdle(m) && m.ir == IR_DMI && AreRequests(scans) && last < 0x200_0000_0000
    requires f.cmdtype == 0 && f.write == 0 && 0x1000 <= f.regno <= 0x101f && Resumes(env, m.core, scans) == 0
    ensures var requests := [Packet(0x17, CommandWord(f), 2), Packet(4, 0, 1)];
            var r := Run(env, m, DmiScans(scans + requests + [last])).replies;
            |r| >= 41 && r[|r| - 41..] == Frame(4, m.core.cpu.reg[f.regno - 0x1000], 0)
  {
    hide Run, IsIdle, DmiScans, Packet, Transact, TransactAll, CommandWord, Frame;
    var requests := [Packet(0x17, CommandWord(f), 2), Packet(4, 0, 1)];
    PacketFields(0x17, CommandWord(f), 2);
    PacketFields(4, 0, 1);
    StepHistory(env, m.core, scans);
    RegisterCommandShown(env, TransactAll(env, m.core, scans), f, 0);
    TransactAllConcat(env, m.core, scans, requests);
    LastReply(env, m, scans + requests, last, 4, m.core.cpu.reg[f.regno - 0x1000], 0);
  }

  /** The read of s0 that a debugger sends first, 0x00221008, shows s0. */
  lemma S0OnWire(env: Env, m: Machine)
    requires IsIdle(m) && m.ir == 0x11
    ensures var r := Run(env, m, DmiScans([Packet(0x17, 0x0022_1008, 2), Packet(4, 0, 1), 0])).replies;
            |r| >= 41 && r[|r| - 41..] == "00" + Spelled(m.core.cpu.reg[8], 32) + "0010000"
  {
    hide Run, IsIdle, DmiScans, Packet, Transact, Spelled;
    var f := CommandFields(0, 0, 2, 0, 0, 1, 0, 0x1008);
    var requests := [Packet(0x17, CommandWord(f), 2), Packet(4, 0, 1)];
    RegisterOnWire(env, m, [], f, 0);
    assert [] + requests + [0] == [Packet(0x17, 0x0022_1008, 2), Packet(4, 0, 1), 0];
    Data0Digits();
  }

  lemma Data0Digits()
    ensures Spelled(0, 2) == "00" && Spelled(4, 7) == "0010000"
  {
    assert Pow2(2) == 4 && Pow2(3) == 8 && Pow2(4) == 16 && Pow2(5) == 32 && Pow2(6) == 64;
  }

  /** How a debugger reads memory: after any requests without a resume, the address into data1, a 32-bit
      read command, a read of data0. The next scan shows the word that the memory held at the start. */
  lemma MemoryOnWire(env: Env, m: Machine, scans: seq<DWord>, f: CommandFields, key: Word, index: nat, low: nat,
                     last: DWord)
    requires IsIdle(m) && m.ir == IR_DMI && AreRequests(scans) && last < 0x200_0000_0000
    requires f.cmdtype == 2 && f.size == 2 && f.write == 0 && Resumes(env, m.core, scans) == 0
    requires key in m.core.cpu.segments && index < 0x4000 && low < 4
    ensures var requests := [Packet(5, key + 4 * index + low, 2), Packet(0x17, CommandWord(f), 2), Packet(4, 0, 1)];
            var r := Run(env, m, DmiScans(scans + requests + [last])).replies;
            |r| >= 41 && r[|r| - 41..] == Frame(4, m.core.cpu.segments[key][index], 0)
  {
    hide Run, IsIdle, DmiScans, Packet, Transact, TransactAll, CommandWord, Frame;
    var a: Word := key + 4 * index + low;
    var first := [Packet(5, a, 2), Packet(0x17, CommandWord(f), 2)];
    var requests := first + [Packet(4, 0, 1)];
    PacketFields(5, a, 2);
    PacketFields(0x17, CommandWord(f), 2);
    PacketFields(4, 0, 1);
    StepHistory(env, m.core, scans);
    var c := TransactAll(env, m.core, scans);
    MemoryReadShown(env, c, f, key, index, low, 0);
    TransactAllSnoc(env, c, first, Packet(4, 0, 1));
    TransactAllConcat(env, m.core, scans, requests);
    assert requests == [Packet(5, a, 2), Packet(0x17, CommandWord(f), 2), Packet(4, 0, 1)];
    LastReply(env, m, scans + requests, last, 4, m.core.cpu.segments[key][index], 0);
  }

  /** A dmcontrol write, then any scan: it shows the word that the write left, or with neither bit 26 nor
      bit 0 set the unanswered write. */
  lemma DmControlOnWire(env: Env, m: Machine, scans: seq<DWord>, w: Word, last: DWord)
    requires IsIdle(m) && m.ir == IR_DMI && AreRequests(scans) && last < 0x200_0000_0000
    ensures var r := Run(env, m, DmiScans(scans + [Packet(0x10, w, 2)] + [last])).replies;
            |r| >= 41 &&
            r[|r| - 41..] ==
            if w / 0x400_0000 % 2 == 1 || w % 2 == 1 then Frame(0x10, Legal(w), 0) else Frame(0x10, w, 2)
  {
    hide Run, IsIdle, DmiScans, Packet, Transact, TransactAll, Legal, Frame, UnpackDmControl;
    PacketFields(0x10, w, 2);
    var c := TransactAll(env, m.core, scans);
    DmControlWrite(env, c, w);
    TransactAllSnoc(env, m.core, scans, Packet(0x10, w, 2));
    if w / 0x400_0000 % 2 == 1 || w % 2 == 1 {
      LastReply(env, m, scans + [Packet(0x10, w, 2)], last, 0x10, Legal(w), 0);
    } else {
      LastReply(env, m, scans + [Packet(0x10, w, 2)], last, 0x10, w, 2);
    }
  }

  // ---------------------------------------------------------------- repeated answers

  function Repeat(s: string, n: nat): string {
    if n == 0 then [] else s + Repeat(s, n - 1)
  }

  /** In a state that an all-zero scan leaves alone, any number of them shows the same response. */
  lemma {:induction false} NopResponses(env: Env, c: Core, n: nat)
    requires Transact(env, c, 0) == c
    ensures Responses(env, c, Zeros(n)) == Repeat(Chars(ToBits(c.dmi, 41)), n)
  {
    hide Transact, ToBits, Chars;
    if n > 0 {
      assert Zeros(n)[1..] == Zeros(n - 1);
      NopResponses(env, c, n - 1);
    }
  }

  /** Once the container holds an answer (operation 0), any number of all-zero scans changes nothing and
      shows that answer each time. A client sees the operation in the response itself. */
  lemma AnswersRepeat(env: Env, m: Machine, n: nat)
    requires IsIdle(m) && m.ir == IR_DMI && Op(m.core.dmi) == NOP
    ensures var o := Run(env, m, DmiScans(Zeros(n)));
            Commit(o.machine) == Commit(m) && o.replies == Repeat(Chars(ToBits(m.core.dmi, 41)), n)
  {
    hide Run, DmiScans, ToBits, Packet, Chars, Process, Responses, Address, Op;
    AnswerIsIdle(env, m.core);
    NopScansStable(env, m.core, n);
    NopResponses(env, m.core, n);
    var o := WireRefinesTransactions(env, m, Zeros(n), "");
    RunNothing(env, o);
    assert DmiScans(Zeros(n)) + "" == DmiScans(Zeros(n));
    assert Responses(env, m.core, Zeros(n)) + "" == Responses(env, m.core, Zeros(n));
  }

  // ---------------------------------------------------------------- the streams themselves

  lemma StreamsSpelled()
    ensures ResetStream() == "r04" && EnterShift() == "2604040" && EnterShiftIr() == "262604040"
    ensures LeaveShift() == "26040" && Clocks(1) == "04" && PauseClocks(1) == "042604"
    ensures forall last :: BitClock(false, last) == if last then "2R6" else "0R4"
    ensures forall last :: BitClock(true, last) == if last then "3R7" else "1R5"
  {
  }

  /** Instruction scans of dmi and dtmcs, and the reply to one behind a reset. */
  lemma InstructionsSpelled()
    ensures IrScan(0x11) == "262604040" + "1R50R40R40R43R7" + "26040"
    ensures IrScan(0x10) == "262604040" + "0R40R40R40R43R7" + "26040"
    ensures IrReply(0x01) == "00000"
  {
    hide ToBits, BitClocks, EnterShiftIr, LeaveShift, NoPauses, Chars;
    StreamsSpelled();
    InstructionBits();
    FiveDigits(true);
    FiveDigits(false);
    FiveZeros();
  }

  lemma InstructionBits()
    ensures ToBits(0x11, 5) == [true, false, false, false, true]
    ensures ToBits(0x10, 5) == [false, false, false, false, true]
    ensures ToBits(0x01, 5) == [true, false, false, false, false]
  {
    hide ToBits;
    LowFive(0x11);
    LowFive(0x10);
    LowFive(0x01);
  }

  lemma FirstOfBits(x: nat, w: nat)
    ensures ToBits(x, w + 1) == [x % 2 == 1] + ToBits(x / 2, w)
    ensures ToBits(x, 0) == []
  {
  }

  lemma LowFive(x: nat)
    ensures ToBits(x, 5) ==
            [x % 2 == 1, x / 2 % 2 == 1, x / 2 / 2 % 2 == 1, x / 2 / 2 / 2 % 2 == 1, x / 2 / 2 / 2 / 2 % 2 == 1]
  {
    hide ToBits;
    FirstOfBits(x, 4);
    FirstOfBits(x / 2, 3);
    FirstOfBits(x / 2 / 2, 2);
    FirstOfBits(x / 2 / 2 / 2, 1);
    FirstOfBits(x / 2 / 2 / 2 / 2, 0);
    FirstOfBits(x / 2 / 2 / 2 / 2 / 2, 0);
  }

  lemma FirstClock(b: bool, bits: seq<bool>, rest: string)
    requires bits != [] && BitClocks(bits, NoPauses(|bits|)) == rest
    ensures BitClocks([b] + bits, NoPauses(|bits| + 1)) == (if b then "1R5" else "0R4") + rest
  {
    hide BitClock;
    assert BitClock(b, false) == (if b then "1R5" else "0R4") by { StreamsSpelled(); }
    assert ([b] + bits)[1..] == bits && NoPauses(|bits| + 1)[1..] == NoPauses(|bits|);
    assert BitStep(b, false, 0) == BitClock(b, false) + [] == BitClock(b, false);
  }

  lemma LastClock()
    ensures BitClocks([true], NoPauses(1)) == "3R7"
  {
    StreamsSpelled();
  }

  lemma FourDigits()
    ensures BitClocks([false, false, false, true], NoPauses(4)) == "0R40R40R43R7"
  {
    hide BitClocks, NoPauses;
    LastClock();
    FirstClock(false, [true], "3R7");
    assert [false] + [true] == [false, true] && "0R4" + "3R7" == "0R43R7";
    FirstClock(false, [false, true], "0R43R7");
    assert [false] + [false, true] == [false, false, true] && "0R4" + "0R43R7" == "0R40R43R7";
    FirstClock(false, [false, false, true], "0R40R43R7");
    assert [false] + [false, false, true] == [false, false, false, true] && "0R4" + "0R40R43R7" == "0R40R40R43R7";
  }

  lemma FiveDigits(b: bool)
    ensures BitClocks([b, false, false, false, true], NoPauses(5)) == if b then "1R50R40R40R43R7" else "0R40R40R40R43R7"
  {
    hide BitClocks, NoPauses;
    FourDigits();
    FirstClock(b, [false, false, false, true], "0R40R40R43R7");
    assert [b] + [false, false, false, true] == [b, false, false, false, true];
    assert (if b then "1R5" else "0R4") + "0R40R40R43R7" == if b then "1R50R40R40R43R7" else "0R40R40R40R43R7";
  }

  lemma FiveZeros()
    ensures Chars([true, false, false, false, false][1..] + [false]) == "00000"
  {
    assert [true, false, false, false, false][1..] + [false] == [false, false, false, false, false];
  }

  /** Attaching, character by character: from every reachable state short of Q these characters are answered
      with five zeros, select the dmi register and leave everything else that is committed. */
  lemma AttachOnWire(env: Env, m: Machine) returns (o: Machine)
    requires CanAttach(m)
    ensures Run(env, m, "r04" + "262604040" + "1R50R40R40R43R7" + "26040") == Outcome(o, "00000")
    ensures IsIdle(o) && Commit(o) == Commit(m).(ir := 0x11)
  {
    hide Run, CanAttach, IsIdle, IrScan, ResetStream, IrReply;
    StreamsSpelled();
    InstructionsSpelled();
    assert "r04" + "262604040" + "1R50R40R40R43R7" + "26040" == ResetStream() + IrScan(0x11);
    assert IrScan(0x11) + "" == IrScan(0x11);
    var n := ResetToIdle(env, m, IrScan(0x11));
    o := IrScanLaw(env, n, 0x11, "");
    RunNothing(env, o);
  }

  /** The first data scan after power-on shows the identification code, behind a reset from any TAP state
      and from Run-Test/Idle also without one. */
  lemma IdCodeOnWire(env: Env, tap: TapState, tdo: bool, cpu: Cpu, bits: seq<bool>)
    requires |bits| == 32
    ensures Run(env, PowerOn(tap, tdo, cpu), "r04" + DrScan(bits)).replies == Spelled(0x2000_0913, 32)
    ensures Run(env, PowerOn(RunTestIdle, tdo, cpu), DrScan(bits)).replies == Spelled(0x2000_0913, 32)
  {
    hide Run, IsIdle, CanAttach, ResetStream, DrScan, ToBits, Chars, InitialCore, Spelled;
    StreamsSpelled();
    PowerOnCanAttach(tap, tdo, cpu);
    var n := ResetToIdle(env, PowerOn(tap, tdo, cpu), DrScan(bits));
    FirstIdCode(env, n, bits);
    PowerOnIdle(tdo, cpu);
    FirstIdCode(env, PowerOn(RunTestIdle, tdo, cpu), bits);
  }

  lemma PowerOnIdle(tdo: bool, cpu: Cpu)
    ensures IsIdle(PowerOn(RunTestIdle, tdo, cpu))
  {
    hide CoreOk, InitialCore;
    InitialCoreOk(cpu);
  }

  lemma FirstIdCode(env: Env, m: Machine, bits: seq<bool>)
    requires IsIdle(m) && m.ir == IR_IDCODE && m.idcode == IDCODE_VALUE && |bits| == 32
    ensures Run(env, m, DrScan(bits)).replies == Spelled(0x2000_0913, 32)
  {
    hide Run, IsIdle, DrScan, ToBits, Chars, Spelled, AfterScan, ScanReply;
    assert DrScan(bits) + "" == DrScan(bits);
    var o := DrScanLaw(env, m, bits, "");
    RunNothing(env, o);
    ShortScan(Commit(m), bits);
    assert (ContainerBits(Commit(m)) + bits)[..32] == ContainerBits(Commit(m));
    CharsSpelled(0x2000_0913, 32);
  }

  /** From every reachable state short of Q: reset, instruction 0x10, a scan of 32 bits. It shows 0x71, that
      is version 1, 7 address bits and all status bits zero, and changes nothing but the instruction. */
  lemma DtmcsOnWire(env: Env, m: Machine, bits: seq<bool>) returns (o: Machine)
    requires MachineOk(m) && !m.quit && |bits| == 32
    ensures Run(env, m, "r04" + IrScan(0x10) + DrScan(bits)) == Outcome(o, "00000" + Spelled(0x71, 32))
    ensures Commit(o) == Commit(m).(ir := 0x10)
  {
    hide Run, IsIdle, CoreOk, ResetStream, IrScan, DrScan, ToBits, Chars, Spelled, ScanReply, IrReply, AfterScan;
    StreamsSpelled();
    InstructionsSpelled();
    assert "r04" + IrScan(0x10) + DrScan(bits) == ResetStream() + (IrScan(0x10) + DrScan(bits));
    assert DrScan(bits) + "" == DrScan(bits);
    var n := ResetToIdle(env, m, IrScan(0x10) + DrScan(bits));
    var k := IrScanLaw(env, n, 0x10, DrScan(bits));
    o := DrScanLaw(env, k, bits, "");
    RunNothing(env, o);
    DtmcsScan(env, Commit(k), bits);
    assert ScanReply(Commit(k), bits)[..32] == ScanReply(Commit(k), bits);
    CharsSpelled(0x71, 32);
  }

  /** The first DMI scan of the first session after power-on shows dmcontrol with dmactive set. */
  lemma FirstContainerOnWire(env: Env, tap: TapState, tdo: bool, cpu: Cpu, scan: DWord)
    requires scan < 0x200_0000_0000
    ensures Run(env, PowerOn(tap, tdo, cpu), Session([scan])).replies == "00000" + Frame(0x10, 1, 0)
  {
    hide Run, Session, Transact, InitialCore, IrReply, Packet, Frame, ToBits, Chars;
    SessionLaw(env, tap, tdo, cpu, [scan]);
    InstructionsSpelled();
    InitialContainer(cpu);
    FrameChars(0x10, 1, 0);
    var first := Chars(ToBits(InitialCore(cpu).dmi, 41));
    assert [scan][1..] == [];
    assert Responses(env, Transact(env, InitialCore(cpu), scan), []) == "";
    assert Responses(env, InitialCore(cpu), [scan]) == first + "" == first;
  }
}
